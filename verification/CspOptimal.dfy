/** When CSP's answer is the cheapest: labels are ranked by transfer alone, the bill also holds
    execution and requests. */
module CspOptimal {
  import opened Sums
  import opened Domain
  import opened Billing
  import opened Coarsening
  import opened Families
  import opened Csp
  import opened CspSearch
  import opened CostlessCsp
  import opened CspMeaning
  import opened MinWCut

  /** The path cut into non-empty contiguous groups, in order. */
  ghost predicate IsSegmentation(chain: seq<Id>, ps: seq<Group>) {
    Flat(ps) == chain && [] !in ps
  }

  /** What joining the groups from left to right saves. */
  ghost function JoinProfit(s: Store, ps: seq<Group>): real {
    if |ps| < 2 then 0.0 else
    JoinProfit(s, ps[..|ps| - 1]) + MergeProfitUSD(s, Flat(ps[..|ps| - 1]), ps[|ps| - 1])
  }

  // ---- the bill of a segmentation ----

  lemma {:induction false} JoinedBill(s: Store, cover: set<Id>, ps: seq<Group>)
    requires ps != [] && Distinct(Flat(ps)) && Elems(Flat(ps)) <= cover
    ensures SeqSum(ps, BlockBillOf(s, cover)) == BlockBill(s, cover, Elems(Flat(ps))) + JoinProfit(s, ps)
  {
    hide MergeProfitUSD, BlockBill;
    var init, last := ps[..|ps| - 1], ps[|ps| - 1];
    if init == [] {
      assert ps == [] + [last];
      FlatSnoc(init, last);
      assert Flat(ps) == Flat(init) + last == last;
      SeqSumSnoc(init, last, BlockBillOf(s, cover));
    } else {
      var all, t := Flat(ps), Flat(init);
      assert all == t + last && t == all[..|t|] && last == all[|t|..];
      JoinedBill(s, cover, init);
      assert Elems(t) !! Elems(last) by {
        forall f | f in t ensures f !in last { }
      }
      assert Elems(all) == Elems(t) + Elems(last);
      MergeProfitIsBillDrop(s, cover, t, last);
    }
  }

  /** Two ways of cutting the same functions up differ on the bill by what joining them saves. */
  lemma SegmentsCost(app: Application, ps: seq<Group>, qs: seq<Group>)
    requires WellFormed(app) && ps != [] && qs != [] && Distinct(Flat(ps)) && Distinct(Flat(qs))
    requires Elems(Flat(ps)) == Elems(Flat(qs)) <= Elems(app.functions)
    ensures TotalCostUSD(app, FinalGroups(app, ps)) - TotalCostUSD(app, FinalGroups(app, qs))
            == JoinProfit(app.nodes, ps) - JoinProfit(app.nodes, qs)
  {
    hide TotalCostUSD, MergeProfitUSD, SeqSum, BlockBill, Flat, Family, WellFormedNode, JoinProfit;
    var h := BlockBillOf(app.nodes, Elems(app.functions));
    var rest := Singles(Unassigned(app.functions, Elems(Flat(ps))));
    forall xs | xs == ps || xs == qs
      ensures TotalCostUSD(app, FinalGroups(app, xs)) == SeqSum(xs, h) + SeqSum(rest, h)
    {
      assert forall f :: f in Flat(xs) ==> f in Elems(Flat(xs));
      SegmentsPartition(app, xs);
      CostIsSumOfBills(app, FinalGroups(app, xs));
      SeqSumAppend(xs, rest, h);
    }
    JoinedBill(app.nodes, Elems(app.functions), ps);
    JoinedBill(app.nodes, Elems(app.functions), qs);
  }

  /** Each boundary costs one hop. */
  lemma SegmentsLatency(app: Application, ps: seq<Group>)
    requires Distinct(app.functions) && Distinct(CriticalPath(app)) && CriticalPath(app) != []
    requires IsSegmentation(CriticalPath(app), ps)
    ensures Latency(app, FinalGroups(app, ps))
            == GroupRuntimeMs(app.nodes, CriticalPath(app)) + (|ps| - 1) * app.networkHopMS
    ensures ps != []
  {
    hide GroupRuntimeMs, PathCuts, Family, CriticalPath;
    var gs := FinalGroups(app, ps);
    NothingFlat();
    SegmentsPartition(app, ps);
    assert gs[..|ps|] == ps;
    SegmentsCut(app.nodes, gs, |ps|);
  }

  // ---- the least a segmentation can cost ----

  /** The least saving of joining up `chain[..j]` when it is cut at most `m` times. */
  ghost function LeastJoin(s: Store, chain: seq<Id>, j: nat, m: nat): real
    requires j <= |chain|
    decreases m, |chain| + 1
  {
    if m == 0 then 0.0 else LeastLastCut(s, chain, j, m, j)
  }

  /** The same with the last cut before position `i`, or no cut. */
  ghost function LeastLastCut(s: Store, chain: seq<Id>, j: nat, m: nat, i: nat): real
    requires i <= j <= |chain| && m > 0
    decreases m, i
  {
    if i <= 1 then 0.0 else
    var before := LeastLastCut(s, chain, j, m, i - 1);
    var here := LeastJoin(s, chain, i - 1, m - 1) + MergeProfitUSD(s, chain[..i - 1], chain[i - 1..j]);
    if here < before then here else before
  }

  lemma {:induction false} CutsTried(s: Store, chain: seq<Id>, j: nat, m: nat, i: nat)
    requires i <= j <= |chain| && m > 0
    ensures LeastLastCut(s, chain, j, m, i) <= 0.0
    ensures forall k :: 1 <= k < i ==>
      LeastLastCut(s, chain, j, m, i) <= LeastJoin(s, chain, k, m - 1) + MergeProfitUSD(s, chain[..k], chain[k..j])
  {
    hide MergeProfitUSD, LeastJoin;
    if i > 1 { CutsTried(s, chain, j, m, i - 1); }
  }

  lemma LastSegment(chain: seq<Id>, j: nat, ps: seq<Group>)
    requires j <= |chain| && IsSegmentation(chain[..j], ps) && |ps| >= 2
    ensures var init := ps[..|ps| - 1];
      var k := |Flat(init)|;
      1 <= k < j && IsSegmentation(chain[..k], init) && ps[|ps| - 1] == chain[k..j]
  {
    var init, last := ps[..|ps| - 1], ps[|ps| - 1];
    var k := |Flat(init)|;
    assert Flat(ps) == Flat(init) + last && last in ps && init[0] in ps;
    assert Flat(init) == chain[..j][..k] && last == chain[..j][k..];
    FlatContains(init, init[0], init[0][0]);
  }

  /** No segmentation with at most `m` cuts is below it, */
  lemma {:induction false} LeastIsLeast(s: Store, chain: seq<Id>, j: nat, m: nat, ps: seq<Group>)
    requires j <= |chain| && IsSegmentation(chain[..j], ps) && |ps| <= m + 1
    ensures LeastJoin(s, chain, j, m) <= JoinProfit(s, ps)
    decreases m
  {
    hide MergeProfitUSD, Flat, IsSegmentation;
    if m > 0 {
      CutsTried(s, chain, j, m, j);
      if |ps| >= 2 {
        LastSegment(chain, j, ps);
        LeastIsLeast(s, chain, |Flat(ps[..|ps| - 1])|, m - 1, ps[..|ps| - 1]);
      }
    }
  }

  lemma OneSegment(s: Store, chain: seq<Id>, j: nat)
    requires 1 <= j <= |chain|
    ensures IsSegmentation(chain[..j], [chain[..j]]) && JoinProfit(s, [chain[..j]]) == 0.0
  {
    FlatOne(chain[..j]);
    assert chain[..j][0] == chain[0];
  }

  lemma OneMoreSegment(s: Store, chain: seq<Id>, k: nat, j: nat, init: seq<Group>)
    requires 1 <= k < j <= |chain| && IsSegmentation(chain[..k], init)
    ensures IsSegmentation(chain[..j], init + [chain[k..j]])
    ensures JoinProfit(s, init + [chain[k..j]]) == JoinProfit(s, init) + MergeProfitUSD(s, chain[..k], chain[k..j])
  {
    hide MergeProfitUSD;
    var g := chain[k..j];
    FlatSnoc(init, g);
    assert chain[..j] == chain[..k] + g && g[0] == chain[k];
    assert (init + [g])[..|init|] == init;
    assert init != [];
  }

  /** and one of them attains it. */
  lemma {:induction false} LeastIsAttained(s: Store, chain: seq<Id>, j: nat, m: nat) returns (ps: seq<Group>)
    requires 1 <= j <= |chain|
    ensures IsSegmentation(chain[..j], ps) && |ps| <= m + 1
    ensures JoinProfit(s, ps) == LeastJoin(s, chain, j, m)
    decreases m, |chain| + 1
  {
    if m == 0 {
      OneSegment(s, chain, j);
      ps := [chain[..j]];
    } else {
      ps := LastCutAttained(s, chain, j, m, j);
    }
  }

  lemma {:induction false} LastCutAttained(s: Store, chain: seq<Id>, j: nat, m: nat, i: nat) returns (ps: seq<Group>)
    requires 1 <= j <= |chain| && i <= j && m > 0
    ensures IsSegmentation(chain[..j], ps) && |ps| <= m + 1
    ensures JoinProfit(s, ps) == LeastLastCut(s, chain, j, m, i)
    decreases m, i
  {
    hide MergeProfitUSD, JoinProfit, IsSegmentation, LeastJoin;
    if i <= 1 {
      OneSegment(s, chain, j);
      ps := [chain[..j]];
    } else {
      ps := LastCutAttained(s, chain, j, m, i - 1);
      var init := LeastIsAttained(s, chain, i - 1, m - 1);
      OneMoreSegment(s, chain, i - 1, j, init);
      if JoinProfit(s, init + [chain[i - 1..j]]) < JoinProfit(s, ps) { ps := init + [chain[i - 1..j]]; }
    }
  }

  // ---- when an answer is the cheapest ----

  /** No segmentation that meets the latency cap costs less. */
  ghost predicate CheapestWithin(app: Application, groups: seq<Group>) {
    forall qs :: IsSegmentation(CriticalPath(app), qs) && Latency(app, FinalGroups(app, qs)) <= app.maxLatencyMS
      ==> TotalCostUSD(app, groups) <= TotalCostUSD(app, FinalGroups(app, qs))
  }

  /** A path of distinct functions that meets the cap bare, and a hop that takes time. */
  ghost predicate FastPath(app: Application) {
    var chain := CriticalPath(app);
    && chain != [] && Distinct(chain) && app.networkHopMS > 0
    && GroupRuntimeMs(app.nodes, chain) <= app.maxLatencyMS
  }

  /** How many cuts of the path the cap leaves room for. */
  ghost function CutsAllowed(app: Application): nat
    requires FastPath(app)
  {
    (app.maxLatencyMS - GroupRuntimeMs(app.nodes, CriticalPath(app))) / app.networkHopMS
  }

  /** The least saving of joining up the whole path, over the segmentations within the cap. */
  ghost function LeastWithin(app: Application): real
    requires FastPath(app)
  {
    LeastJoin(app.nodes, CriticalPath(app), |CriticalPath(app)|, CutsAllowed(app))
  }

  lemma HopsWithin(n: nat, hop: int, room: int)
    requires hop > 0 && room >= 0
    ensures n * hop <= room <==> n <= room / hop
  {
    var q := room / hop;
    assert room == q * hop + room % hop;
    if n <= q { assert n * hop <= q * hop; } else { assert n * hop >= (q + 1) * hop == q * hop + hop; }
  }

  lemma WithinCap(app: Application, ps: seq<Group>)
    requires WellFormed(app) && FastPath(app) && IsSegmentation(CriticalPath(app), ps)
    ensures ps != [] && (Latency(app, FinalGroups(app, ps)) <= app.maxLatencyMS <==> |ps| <= CutsAllowed(app) + 1)
  {
    hide CriticalPath, WellFormedNode, GroupRuntimeMs, Latency, IsSegmentation;
    SegmentsLatency(app, ps);
    HopsWithin(|ps| - 1, app.networkHopMS, app.maxLatencyMS - GroupRuntimeMs(app.nodes, CriticalPath(app)));
  }

  lemma PathInside(app: Application)
    ensures Elems(CriticalPath(app)) <= Elems(app.functions)
  { }

  lemma JoinDifference(app: Application, ps: seq<Group>, qs: seq<Group>)
    requires WellFormed(app) && FastPath(app)
    requires IsSegmentation(CriticalPath(app), ps) && IsSegmentation(CriticalPath(app), qs)
    ensures TotalCostUSD(app, FinalGroups(app, ps)) <= TotalCostUSD(app, FinalGroups(app, qs)) <==>
      JoinProfit(app.nodes, ps) <= JoinProfit(app.nodes, qs)
  {
    hide CriticalPath, WellFormed, TotalCostUSD, FinalGroups, JoinProfit;
    NothingFlat();
    PathInside(app);
    SegmentsCost(app, ps, qs);
  }

  /** Whatever the cap, a segmentation is the cheapest within it exactly when joining it up saves no
      more than the least a polynomial recursion over the path finds. */
  lemma CheapestExactly(app: Application, ps: seq<Group>)
    requires WellFormed(app) && FastPath(app) && IsSegmentation(CriticalPath(app), ps)
    ensures CheapestWithin(app, FinalGroups(app, ps)) <==> JoinProfit(app.nodes, ps) <= LeastWithin(app)
  {
    hide CriticalPath, WellFormed, TotalCostUSD, FinalGroups, JoinProfit, IsSegmentation, Latency, LeastJoin,
      GroupRuntimeMs, FastPath, CutsAllowed;
    var chain, s := CriticalPath(app), app.nodes;
    PathNotEmpty(app);
    assert chain[..|chain|] == chain;
    var least := LeastIsAttained(s, chain, |chain|, CutsAllowed(app));
    WithinCap(app, least);
    JoinDifference(app, ps, least);
    if JoinProfit(s, ps) <= LeastWithin(app) {
      forall qs | IsSegmentation(chain, qs) && Latency(app, FinalGroups(app, qs)) <= app.maxLatencyMS
        ensures TotalCostUSD(app, FinalGroups(app, ps)) <= TotalCostUSD(app, FinalGroups(app, qs))
      {
        WithinCap(app, qs);
        LeastIsLeast(s, chain, |chain|, CutsAllowed(app), qs);
        JoinDifference(app, ps, qs);
      }
    }
  }

  lemma PathNotEmpty(app: Application)
    requires FastPath(app)
    ensures CriticalPath(app) != [] && Distinct(CriticalPath(app)) && app.networkHopMS > 0
    ensures GroupRuntimeMs(app.nodes, CriticalPath(app)) <= app.maxLatencyMS
  { }

  // ---- the search's own answer ----

  /** What a finished run from the start label is. */
  ghost predicate Finished(app: Application, labels: Frontiers, generated: set<Item>, best: Option<CspLabel>) {
    var chain := CriticalPath(app);
    && chain != []
    && LoopState(app, chain, labels, [], generated) && Item(chain[0], StartLabel(app, chain[0])) in generated
    && Outcome(app, labels, best)
  }

  lemma AnswerIsSegmentation(app: Application, labels: Frontiers, generated: set<Item>, l: CspLabel)
    requires Distinct(CriticalPath(app)) && Finished(app, labels, generated, Some(l))
    ensures IsSegmentation(CriticalPath(app), l.partitioning)
  {
    hide LoopState, StartLabel, CriticalPath, IsTrail, CutTransfer, GroupMemory, GroupRuntimeMs, Flat;
    var chain, n := CriticalPath(app), |CriticalPath(app)| - 1;
    EndIsNode(app, labels, l);
    KeptLabelOK(app, chain, labels, generated, chain[n], l);
    LabelCoversPrefix(app, chain, n, l);
    assert chain[..n + 1] == chain;
    forall g | g in l.partitioning ensures g != [] { assert Grown(app.nodes, g); }
  }

  /** Exactly when the search's answer is the cheapest segmentation within the cap, in any run. */
  lemma AnswerCheapestExactly(app: Application, labels: Frontiers, generated: set<Item>, l: CspLabel)
    requires WellFormed(app) && FastPath(app) && Finished(app, labels, generated, Some(l))
    ensures CheapestWithin(app, FinalGroups(app, l.partitioning)) <==>
      JoinProfit(app.nodes, l.partitioning) <= LeastWithin(app)
  {
    hide CriticalPath, WellFormed, JoinProfit, IsSegmentation, Finished, LeastWithin, FinalGroups, CheapestWithin,
      GroupRuntimeMs;
    AnswerIsSegmentation(app, labels, generated, l);
    CheapestExactly(app, l.partitioning);
  }

  lemma WholePath(app: Application)
    requires FastPath(app)
    ensures IsSegmentation(CriticalPath(app), [CriticalPath(app)]) && JoinProfit(app.nodes, [CriticalPath(app)]) == 0.0
  {
    var chain := CriticalPath(app);
    assert chain[..|chain|] == chain;
    OneSegment(app.nodes, chain, |chain|);
  }

  /** Where every prefix pays, for every cap the bare runtimes meet: the search answers with the whole
      path in one group, and that is the cheapest segmentation within the cap exactly when no way of
      cutting the path that the cap leaves room for is joined up at a loss. */
  lemma MergedAnswerCheapestExactly(app: Application, labels: Frontiers, generated: set<Item>, best: Option<CspLabel>)
    requires WellFormed(app) && FastPath(app) && PrefixesPay(app, CriticalPath(app))
    requires Finished(app, labels, generated, best)
    ensures best.Some? && best.value.partitioning == [CriticalPath(app)]
    ensures CheapestWithin(app, FinalGroups(app, best.value.partitioning)) <==> LeastWithin(app) >= 0.0
  {
    hide CriticalPath, WellFormed, JoinProfit, IsSegmentation, LeastWithin, FinalGroups, CheapestWithin, PrefixesPay,
      GroupRuntimeMs, LoopState, Outcome, StartLabel;
    ExactWhenPrefixesPay(app, labels, generated, best);
    WholePath(app);
    CheapestExactly(app, [CriticalPath(app)]);
  }

  /** The saving of joining the two sides of one cut. */
  ghost predicate EveryCutJoins(app: Application) {
    var chain := CriticalPath(app);
    forall i :: 1 <= i < |chain| ==> MergeProfitUSD(app.nodes, chain[..i], chain[i..]) >= 0.0
  }

  lemma {:induction false} OneCutLeast(s: Store, chain: seq<Id>, i: nat)
    requires i <= |chain|
    ensures LeastLastCut(s, chain, |chain|, 1, i) >= 0.0 <==>
      forall k :: 1 <= k < i ==> MergeProfitUSD(s, chain[..k], chain[k..]) >= 0.0
  {
    hide MergeProfitUSD;
    if i > 1 {
      OneCutLeast(s, chain, i - 1);
      assert chain[i - 1..|chain|] == chain[i - 1..];
    }
  }

  /** With room for no hop the answer is always the cheapest; with room for exactly one, exactly when
      joining the two sides of every cut saves something or nothing. */
  lemma OneHopAnswerCheapestExactly(app: Application, labels: Frontiers, generated: set<Item>, best: Option<CspLabel>)
    requires WellFormed(app) && FastPath(app) && PrefixesPay(app, CriticalPath(app))
    requires Finished(app, labels, generated, best)
    requires app.maxLatencyMS < GroupRuntimeMs(app.nodes, CriticalPath(app)) + 2 * app.networkHopMS
    ensures best.Some? && best.value.partitioning == [CriticalPath(app)]
    ensures app.maxLatencyMS < GroupRuntimeMs(app.nodes, CriticalPath(app)) + app.networkHopMS ==>
      CheapestWithin(app, FinalGroups(app, best.value.partitioning))
    ensures app.maxLatencyMS >= GroupRuntimeMs(app.nodes, CriticalPath(app)) + app.networkHopMS ==>
      (CheapestWithin(app, FinalGroups(app, best.value.partitioning)) <==> EveryCutJoins(app))
  {
    hide CriticalPath, WellFormed, IsSegmentation, FinalGroups, CheapestWithin, PrefixesPay, GroupRuntimeMs, Finished,
      MergeProfitUSD;
    var room := app.maxLatencyMS - GroupRuntimeMs(app.nodes, CriticalPath(app));
    MergedAnswerCheapestExactly(app, labels, generated, best);
    HopsWithin(1, app.networkHopMS, room);
    HopsWithin(2, app.networkHopMS, room);
    OneCutLeast(app.nodes, CriticalPath(app), |CriticalPath(app)|);
  }

  /** At any cap, one cut of the path undercuts the answer exactly when its two sides are joined at a
      loss. */
  lemma OneCutUndercutsExactly(app: Application, i: nat)
    requires WellFormed(app) && FastPath(app) && 1 <= i < |CriticalPath(app)|
    ensures var chain := CriticalPath(app);
      TotalCostUSD(app, FinalGroups(app, [chain[..i], chain[i..]])) < TotalCostUSD(app, FinalGroups(app, [chain]))
      <==> MergeProfitUSD(app.nodes, chain[..i], chain[i..]) < 0.0
    ensures Latency(app, FinalGroups(app, [CriticalPath(app)[..i], CriticalPath(app)[i..]]))
            == GroupRuntimeMs(app.nodes, CriticalPath(app)) + app.networkHopMS
  {
    hide CriticalPath, WellFormed, TotalCostUSD, FinalGroups, MergeProfitUSD, GroupRuntimeMs, Latency, IsSegmentation;
    var chain := CriticalPath(app);
    WholePath(app);
    OneSegment(app.nodes, chain, i);
    OneMoreSegment(app.nodes, chain, i, |chain|, [chain[..i]]);
    assert chain[i..|chain|] == chain[i..] && chain[..|chain|] == chain;
    assert [chain[..i]] + [chain[i..]] == [chain[..i], chain[i..]];
    FunctionsDistinct(app);
    SegmentsLatency(app, [chain[..i], chain[i..]]);
    JoinDifference(app, [chain[..i], chain[i..]], [chain]);
    JoinDifference(app, [chain], [chain[..i], chain[i..]]);
  }

  // ---- where nothing is fused ----

  lemma {:induction false} LoneSegments(ps: seq<Group>)
    requires [] !in ps
    ensures |ps| <= |Flat(ps)|
    ensures |ps| == |Flat(ps)| ==> ps == Singles(Flat(ps))
  {
    if ps != [] {
      var init, last := ps[..|ps| - 1], ps[|ps| - 1];
      LoneSegments(init);
      assert last in ps && Flat(ps) == Flat(init) + last;
      if |ps| == |Flat(ps)| {
        assert last == [last[0]] && ps == init + [last];
        assert Singles(Flat(init) + last) == Singles(Flat(init)) + [last];
      }
    } else {
      assert Singles([]) == [];
    }
  }

  /** Where no neighbours pay, an answer is the unfused path, and that is the cheapest segmentation
      within the cap exactly when joining it up saves no more than joining any other. */
  lemma UnfusedAnswerCheapestExactly(app: Application, labels: Frontiers, generated: set<Item>, l: CspLabel)
    requires WellFormed(app) && FastPath(app) && PairsDontPay(app, CriticalPath(app))
    requires Finished(app, labels, generated, Some(l))
    ensures l.partitioning == Singles(CriticalPath(app))
    ensures CheapestWithin(app, FinalGroups(app, l.partitioning)) <==>
      JoinProfit(app.nodes, Singles(CriticalPath(app))) <= LeastWithin(app)
  {
    hide CriticalPath, WellFormed, JoinProfit, LeastWithin, FinalGroups, CheapestWithin, GroupRuntimeMs, StartLabel,
      CutTransfer, IsTrail, PairsDontPay, LoopState, GroupMemory, MergeProfitUSD;
    var chain := CriticalPath(app);
    AnswerIsSegmentation(app, labels, generated, l);
    EndIsNode(app, labels, l);
    KeptLabelOK(app, chain, labels, generated, chain[|chain| - 1], l);
    assert chain[..|chain|] == chain;
    EverySegmentIsOne(app, chain, l.partitioning);
    LoneSegments(l.partitioning);
    AnswerCheapestExactly(app, labels, generated, l);
  }

  // ---- where the path calls functions of one size ----

  /** Along the path every function has one size, which fits, and cutting any neighbours costs something. */
  ghost predicate EqualsOnPath(app: Application) {
    var chain, s := CriticalPath(app), app.nodes;
    && (forall f :: f in chain ==> At(s, f).memoryMB == At(s, chain[0]).memoryMB <= app.maxMemoryMB)
    && (forall i :: 1 <= i < |chain| ==> Costly(s, chain[i - 1], chain[i]) || Costly(s, chain[i], chain[i - 1]))
  }

  lemma EqualMemory(app: Application, g: Group)
    requires EqualsOnPath(app) && g != [] && forall f :: f in g ==> f in CriticalPath(app)
    ensures GroupMemory(app.nodes, g) == MaxMemory(app.nodes, Elems(g)) <= app.maxMemoryMB
    ensures GroupMemory(app.nodes, g) == At(app.nodes, CriticalPath(app)[0]).memoryMB
  {
    hide CriticalPath, Costly;
    assert g[0] in g;
    UniformMemory(app.nodes, g, g[0]);
  }

  lemma DisjointParts(a: Group, b: Group)
    requires Distinct(a + b)
    ensures Distinct(a) && Distinct(b) && Elems(a) !! Elems(b)
    ensures forall f :: f in a || f in b ==> f in a + b
  {
    assert a == (a + b)[..|a|] && b == (a + b)[|a|..];
    forall f | f in a ensures f !in b { }
  }

  lemma EqualsJoin(app: Application, a: Group, b: Group)
    requires WellFormed(app) && EqualsOnPath(app) && a != [] && b != [] && Distinct(a + b)
    requires forall f :: f in a + b ==> f in CriticalPath(app)
    ensures MergeProfitUSD(app.nodes, a, b) >= 0.0
    ensures CostlyBetween(app.nodes, Elems(a), Elems(b)) ==> MergeProfitUSD(app.nodes, a, b) > 0.0
    ensures GroupMemory(app.nodes, a) <= app.maxMemoryMB && GroupMemory(app.nodes, b) <= app.maxMemoryMB
  {
    hide MergeProfitUSD, Gained, CostlyBetween, WellFormed, CriticalPath, EqualsOnPath, GroupMemory, MaxMemory,
      Distinct;
    PathInside(app);
    DisjointParts(a, b);
    assert Elems(a) + Elems(b) <= Elems(app.functions);
    EqualMemory(app, a);
    EqualMemory(app, b);
    ProfitTerms(app.nodes, a, b);
    GainedSign(app, Elems(a), Elems(b));
    if !CostlyBetween(app.nodes, Elems(a), Elems(b)) { NothingGained(app, Elems(a), Elems(b)); }
  }

  lemma {:induction false} EqualsJoinAll(app: Application, ps: seq<Group>)
    requires WellFormed(app) && EqualsOnPath(app) && [] !in ps && Distinct(Flat(ps))
    requires forall f :: f in Flat(ps) ==> f in CriticalPath(app)
    ensures JoinProfit(app.nodes, ps) >= 0.0
  {
    hide MergeProfitUSD, WellFormed, CriticalPath, EqualsOnPath;
    if |ps| >= 2 {
      var init, last := ps[..|ps| - 1], ps[|ps| - 1];
      assert Flat(ps) == Flat(init) + last;
      assert Flat(init) == Flat(ps)[..|Flat(init)|];
      EqualsJoinAll(app, init);
      LoneSegments(init);
      EqualsJoin(app, Flat(init), last);
    }
  }

  lemma EqualPrefixesPay(app: Application)
    requires WellFormed(app) && EqualsOnPath(app) && Distinct(CriticalPath(app))
    ensures PrefixesPay(app, CriticalPath(app))
  {
    hide MergeProfitUSD, WellFormed, CriticalPath, GroupMemory, Costly;
    var chain, s := CriticalPath(app), app.nodes;
    forall i | 1 <= i < |chain|
      ensures MergeProfitUSD(s, chain[..i], [chain[i]]) > 0.0
      ensures Max(GroupMemory(s, chain[..i]), At(s, chain[i]).memoryMB) <= app.maxMemoryMB
    {
      assert chain[..i] + [chain[i]] == chain[..i + 1];
      assert chain[i - 1] in Elems(chain[..i]) && chain[i] in Elems([chain[i]]) && chain[i] in chain;
      EqualsJoin(app, chain[..i], [chain[i]]);
    }
  }

  /** The promise kept: on such a path the search answers exactly when the bare runtimes meet the cap,
      and no way of grouping the path's functions costs less, whatever its latency. */
  lemma OptimalAmongEquals(app: Application, labels: Frontiers, generated: set<Item>, best: Option<CspLabel>,
      qs: seq<Group>)
    requires WellFormed(app) && EqualsOnPath(app) && Distinct(CriticalPath(app)) && app.networkHopMS > 0
    requires Finished(app, labels, generated, best)
    requires qs != [] && [] !in qs && Distinct(Flat(qs)) && Elems(Flat(qs)) == Elems(CriticalPath(app))
    ensures best.Some? <==> GroupRuntimeMs(app.nodes, CriticalPath(app)) <= app.maxLatencyMS
    ensures best.Some? ==>
      TotalCostUSD(app, FinalGroups(app, best.value.partitioning)) <= TotalCostUSD(app, FinalGroups(app, qs))
  {
    hide CriticalPath, WellFormed, JoinProfit, FinalGroups, GroupRuntimeMs, StartLabel, LoopState, Outcome,
      EqualsOnPath, PrefixesPay, TotalCostUSD;
    EqualPrefixesPay(app);
    ExactWhenPrefixesPay(app, labels, generated, best);
    var chain := CriticalPath(app);
    PathInside(app);
    assert forall f :: f in Flat(qs) ==> f in Elems(Flat(qs));
    EqualsJoinAll(app, qs);
    FlatOne(chain);
    SegmentsCost(app, qs, [chain]);
    assert JoinProfit(app.nodes, [chain]) == 0.0 by { NoJoin(app.nodes, [chain]); }
  }

  lemma NoJoin(s: Store, ps: seq<Group>)
    ensures |ps| == 1 ==> JoinProfit(s, ps) == 0.0
  { }
}
