/** Costless CSP: the chosen label, the partition built from it, and what that is worth. */
module CostlessCsp {
  import opened Sums
  import opened Domain
  import opened Billing
  import opened Coarsening
  import opened RepeatedCalls
  import opened Evaluation
  import opened Results
  import opened Families
  import opened Csp
  import opened CspSearch

  // ---- selection ----

  ghost predicate IsCheapestWithin(frontier: seq<CspLabel>, cap: int, best: CspLabel) {
    best in frontier && best.latency <= cap && forall l :: l in frontier && l.latency <= cap ==> best.cost <= l.cost
  }

  method SelectBest(frontier: seq<CspLabel>, cap: int) returns (best: Option<CspLabel>)
    ensures best.Some? ==> IsCheapestWithin(frontier, cap, best.value)
    ensures best.None? ==> forall l :: l in frontier ==> l.latency > cap
  {
    best := None;
    for i := 0 to |frontier|
      invariant best.Some? ==> IsCheapestWithin(frontier[..i], cap, best.value)
      invariant best.None? ==> forall l :: l in frontier[..i] ==> l.latency > cap
    {
      assert frontier[..i + 1] == frontier[..i] + [frontier[i]];
      if frontier[i].latency <= cap {
        if best.None? || frontier[i].cost < best.value.cost {
          best := Some(frontier[i]);
        }
      }
    }
    assert frontier[..|frontier|] == frontier;
  }

  function Unassigned(functions: seq<Id>, placed: set<Id>): seq<Id> {
    if functions == [] then [] else
    var rest := Unassigned(functions[..|functions| - 1], placed);
    if functions[|functions| - 1] in placed then rest else rest + [functions[|functions| - 1]]
  }

  /** The label's groups, then every function off the path on its own. */
  ghost function FinalGroups(app: Application, ps: seq<Group>): seq<Group> {
    ps + Singles(Unassigned(app.functions, Elems(Flat(ps))))
  }

  method BuildGroups(app: Application, ps: seq<Group>) returns (groups: seq<Group>)
    ensures groups == FinalGroups(app, ps)
  {
    var placed: set<Id> := {};
    for i := 0 to |ps|
      invariant placed == Elems(Flat(ps[..i]))
    {
      assert ps[..i + 1][..i] == ps[..i];
      placed := placed + (set f | f in ps[i]);
    }
    assert ps[..|ps|] == ps;
    groups := ps;
    var fs := app.functions;
    for i := 0 to |fs|
      invariant groups == ps + Singles(Unassigned(fs[..i], placed))
    {
      assert fs[..i + 1][..i] == fs[..i];
      if fs[i] !in placed {
        groups := groups + [[fs[i]]];
      }
    }
    assert fs[..|fs|] == fs;
  }

  /** The run's outcome: the cheapest kept end label within the cap, if there is one. */
  ghost predicate Outcome(app: Application, labels: Frontiers, best: Option<CspLabel>) {
    var chain := CriticalPath(app);
    && chain != []
    && var frontier := FrontierAt(labels, chain[|chain| - 1]);
      if best.Some? then IsCheapestWithin(frontier, app.maxLatencyMS, best.value)
      else forall l :: l in frontier ==> l.latency > app.maxLatencyMS
  }

  method Optimize(app: Application)
    returns (r: AlgorithmResult, ghost labels: Frontiers, ghost generated: set<Item>, ghost best: Option<CspLabel>)
    ensures r.name == "Costless (CSP)"
    ensures r.error == "" <==> CriticalPath(app) != [] && best.Some?
    ensures CriticalPath(app) != [] ==>
      LoopState(app, CriticalPath(app), labels, [], generated) && Outcome(app, labels, best)
    ensures CriticalPath(app) != [] ==> Item(CriticalPath(app)[0], StartLabel(app, CriticalPath(app)[0])) in generated
    ensures r.error == "" ==>
      r.groups == FinalGroups(app, best.value.partitioning) && r.metrics == MetricsOf(app, r.groups)
    ensures r.error == "" && CallsMayRepeat(app) ==> NoWorseThanAlone(app, r.groups)
  {
    hide LoopState, Outcome, CallsMayRepeat, NoWorseThanAlone, FinalGroups, CriticalPath, MetricsOf, StartLabel,
      FrontierAt, IsCheapestWithin;
    var chain := CriticalPathFunctions(app);
    labels, generated, best := map[], {}, None;
    if chain == [] {
      r := Failed("Costless (CSP)", Metrics(0.0, 0, false), "critical path is empty");
      return;
    }
    var frontiers, gen := Search(app, chain);
    labels, generated := frontiers, gen;
    var chosen := SelectBest(FrontierAt(frontiers, chain[|chain| - 1]), app.maxLatencyMS);
    best := chosen;
    SelectionIsOutcome(app, labels, best);
    if chosen.None? {
      r := Failed("Costless (CSP)", Metrics(0.0, 0, false), "infeasible on critical path");
      return;
    }
    var groups := BuildGroups(app, chosen.value.partitioning);
    r := Evaluated(app, "Costless (CSP)", groups);
    if CallsMayRepeat(app) {
      ChosenIsNoWorse(app, labels, generated, chosen.value);
    }
  }

  lemma SelectionIsOutcome(app: Application, labels: Frontiers, best: Option<CspLabel>)
    requires CriticalPath(app) != []
    requires best.Some? ==>
      IsCheapestWithin(FrontierAt(labels, CriticalPath(app)[|CriticalPath(app)| - 1]), app.maxLatencyMS, best.value)
    requires best.None? ==> forall l ::
      l in FrontierAt(labels, CriticalPath(app)[|CriticalPath(app)| - 1]) ==> l.latency > app.maxLatencyMS
    ensures Outcome(app, labels, best)
  { }

  lemma ChosenIsNoWorse(app: Application, labels: Frontiers, generated: set<Item>, l: CspLabel)
    requires CallsMayRepeat(app) && CriticalPath(app) != []
    requires LoopState(app, CriticalPath(app), labels, [], generated) && Outcome(app, labels, Some(l))
    ensures NoWorseThanAlone(app, FinalGroups(app, l.partitioning))
  {
    hide NoWorseThanAlone, FinalGroups, CallsMayRepeat, LabelOK, Pending;
    var end := CriticalPath(app)[|CriticalPath(app)| - 1];
    assert Item(end, l) in generated;
    NeverWorseWithRepeats(app, end, l);
  }

  /** Pruning costs nothing against what was generated: the returned label is the cheapest of all
      generated end labels within the cap, and no answer means none of them met it. */
  lemma BestOfAllGenerated(app: Application, labels: Frontiers, generated: set<Item>, best: Option<CspLabel>)
    requires var chain := CriticalPath(app);
      chain != [] && LoopState(app, chain, labels, [], generated) && Outcome(app, labels, best)
    ensures var end := CriticalPath(app)[|CriticalPath(app)| - 1];
      forall it :: it in generated && it.node == end && it.mark.latency <= app.maxLatencyMS ==>
        best.Some? && best.value.cost <= it.mark.cost
    ensures best.Some? ==> Item(CriticalPath(app)[|CriticalPath(app)| - 1], best.value) in generated
  {
    hide LabelOK, Pending, Antichain, CriticalPath;
    var chain := CriticalPath(app);
    var end := chain[|chain| - 1];
    forall it | it in generated && it.node == end && it.mark.latency <= app.maxLatencyMS
      ensures best.Some? && best.value.cost <= it.mark.cost
    {
      var x :| x in labels[end] && Dominates(x, it.mark);
    }
  }

  // ---- the partition ----

  lemma {:induction false} TrailIncreases(chain: seq<Id>, t: seq<Id>)
    requires IsTrail(chain, t)
    ensures Distinct(t)
    ensures forall f :: f in t ==> f in chain && LastIndex(chain, f) <= LastIndex(chain, t[|t| - 1])
  {
    hide LastIndex;
    var init, last := t[..|t| - 1], t[|t| - 1];
    assert t == init + [last];
    if |t| == 1 {
      assert chain[0] in chain;
    } else {
      TrailIncreases(chain, init);
      LastIndexLater(chain, LastIndex(chain, init[|init| - 1]) + 1);
    }
  }

  lemma {:induction false} UnassignedMeaning(functions: seq<Id>, placed: set<Id>)
    requires Distinct(functions)
    ensures Distinct(Unassigned(functions, placed))
    ensures forall f :: f in Unassigned(functions, placed) <==> f in functions && f !in placed
  {
    if functions != [] {
      var init, last := functions[..|functions| - 1], functions[|functions| - 1];
      UnassignedMeaning(init, placed);
      assert functions == init + [last];
    }
  }

  /** However a path is cut up, its groups and every other function alone are a partition. */
  lemma SegmentsPartition(app: Application, ps: seq<Group>)
    requires Distinct(app.functions) && Distinct(Flat(ps)) && forall f :: f in Flat(ps) ==> f in app.functions
    ensures IsPartition(app, FinalGroups(app, ps))
  {
    var t := Flat(ps);
    var rest := Unassigned(app.functions, Elems(t));
    UnassignedMeaning(app.functions, Elems(t));
    FlatSingles(rest);
    FlatAppend(ps, Singles(rest));
    DistinctAppend(t, rest);
    FlatFamily(FinalGroups(app, ps));
    assert forall f :: f in t + rest <==> f in app.functions;
  }

  /** Whatever label is chosen, the groups built from it are a partition of the functions. */
  lemma FinalIsPartition(app: Application, u: Id, l: CspLabel)
    requires Distinct(app.functions) && LabelOK(app, CriticalPath(app), u, l)
    ensures IsPartition(app, FinalGroups(app, l.partitioning))
    ensures forall g :: g in FinalGroups(app, l.partitioning) ==> Grown(app.nodes, g)
  {
    hide MergeProfitUSD, IsTrail, IsPartition;
    TrailIncreases(CriticalPath(app), Flat(l.partitioning));
    SegmentsPartition(app, l.partitioning);
  }

  ghost function AloneBill(s: Store, cover: set<Id>): Id -> real {
    (f: Id) => BlockBill(s, cover, {f})
  }

  /** A group whose members paid their way in costs no more than they would alone. */
  lemma {:induction false} GrownCostsNoMore(s: Store, cover: set<Id>, g: Group, j: nat)
    requires Grown(s, g) && Distinct(g) && Elems(g) <= cover && 1 <= j <= |g|
    ensures BlockBill(s, cover, Elems(g[..j])) <= Sum(Elems(g[..j]), AloneBill(s, cover))
  {
    hide MergeProfitUSD, BlockBill, Sum;
    if j == 1 {
      assert g[..1] == [g[0]];
      assert Elems(g[..1]) == {g[0]};
      SumSingle(g[0], AloneBill(s, cover));
    } else {
      var a, v := g[..j - 1], g[j - 1];
      GrownCostsNoMore(s, cover, g, j - 1);
      assert g[..j] == a + [v];
      assert Elems(g[..j]) == Elems(a) + {v} && Elems([v]) == {v};
      assert v !in Elems(a);
      assert Elems(a) <= Elems(g) && v in Elems(g);
      MergeProfitIsBillDrop(s, cover, a, [v]);
      SumInsert(Elems(a), AloneBill(s, cover), v);
    }
  }

  lemma SinglesBills(app: Application)
    requires WellFormed(app)
    ensures TotalCostUSD(app, Singles(app.functions))
            == Sum(Elems(app.functions), AloneBill(app.nodes, Elems(app.functions)))
  {
    hide Sum, SeqSum, BlockBill, TotalCostUSD, Family;
    var s, F, none := app.nodes, Elems(app.functions), Singles(app.functions);
    SinglesPartition(app);
    CostIsSumOfBills(app, none);
    forall g | g in none ensures BlockBillOf(s, F)(g) == GroupTotal(AloneBill(s, F))(g) {
      var i :| 0 <= i < |none| && none[i] == g;
      assert Elems(g) == {g[0]};
      SumSingle(g[0], AloneBill(s, F));
    }
    SeqSumCong(none, BlockBillOf(s, F), GroupTotal(AloneBill(s, F)));
    SumOverGroups(none, AloneBill(s, F));
  }

  /** Never worse than doing nothing, on either axis, whenever there is an answer. */
  lemma NeverWorseThanNoFusion(app: Application, u: Id, l: CspLabel)
    requires WellFormed(app) && LabelOK(app, CriticalPath(app), u, l)
    ensures NoWorseThanAlone(app, FinalGroups(app, l.partitioning))
  {
    hide MergeProfitUSD, BlockBill, Sum, SeqSum, TotalCostUSD, LabelOK, Grown, Latency, Feasible;
    var s, F, gs := app.nodes, Elems(app.functions), FinalGroups(app, l.partitioning);
    FinalIsPartition(app, u, l);
    CostIsSumOfBills(app, gs);
    SinglesBills(app);
    forall g | g in gs ensures BlockBillOf(s, F)(g) <= GroupTotal(AloneBill(s, F))(g) {
      var i :| 0 <= i < |gs| && gs[i] == g;
      FamilyGroupDistinct(gs, i);
      MembersOfGroup(gs, i);
      GrownNonEmpty(s, g);
      GrownCostsNoMore(s, F, g, |g|);
      assert g[..|g|] == g;
    }
    SeqSumLe(gs, BlockBillOf(s, F), GroupTotal(AloneBill(s, F)));
    SumOverGroups(gs, AloneBill(s, F));
    SinglesPartition(app);
    BaselinesBound(app, gs, app.functions);
    CoarserIsFaster(app, Singles(app.functions), gs);
    NoneEmpty(app.nodes, gs);
    FeasibleWhenAloneIs(app, gs);
  }

  lemma {:induction false} CutTransferOnce(s: Store, ps: seq<Group>)
    ensures CutTransfer(NodesOnce(s), ps) == CutTransfer(s, ps)
  {
    hide NodesOnce, DataTransferCostUSD;
    if |ps| >= 2 {
      var u, v := ps[|ps| - 2], ps[|ps| - 1];
      CutTransferOnce(s, ps[..|ps| - 1]);
      if u != [] && v != [] { TransferOnce(s, u[|u| - 1], v[0]); }
    }
  }

  lemma GrownOnce(s: Store, g: Group)
    requires Grown(s, g)
    ensures Grown(NodesOnce(s), g)
  {
    hide NodesOnce, MergeProfitUSD;
    forall j | 1 <= j < |g| ensures MergeProfitUSD(NodesOnce(s), g[..j], [g[j]]) > 0.0 {
      ProfitOnce(s, g[..j], [g[j]]);
    }
  }

  lemma LabelOnce(app: Application, chain: seq<Id>, u: Id, l: CspLabel)
    requires LabelOK(app, chain, u, l)
    ensures LabelOK(Once(app), chain, u, l)
  {
    hide NodesOnce, MergeProfitUSD, Grown, CutTransfer, GroupMemory, GroupRuntimeMs, IsTrail;
    var ps := l.partitioning;
    forall g | g in ps ensures Grown(NodesOnce(app.nodes), g) && FusedFits(Once(app), g) {
      GrownOnce(app.nodes, g);
      RunOnce(app.nodes, g);
    }
    CutTransferOnce(app.nodes, ps);
    RunOnce(app.nodes, Flat(ps));
    RunOnce(app.nodes, ps[|ps| - 1]);
  }

  /** The same where calls are listed more than once. */
  lemma NeverWorseWithRepeats(app: Application, u: Id, l: CspLabel)
    requires CallsMayRepeat(app) && LabelOK(app, CriticalPath(app), u, l)
    ensures NoWorseThanAlone(app, FinalGroups(app, l.partitioning))
  {
    hide NoWorseThanAlone, WellFormed, NodesOnce, LabelOK;
    LabelOnce(app, CriticalPath(app), u, l);
    LatencyOnce(app, []);
    NeverWorseThanNoFusion(Once(app), u, l);
    NoWorseWithRepeats(app, FinalGroups(app, l.partitioning));
  }

  lemma NoneEmpty(s: Store, gs: seq<Group>)
    requires forall g :: g in gs ==> Grown(s, g)
    ensures [] !in gs
  { }

  lemma MembersOfGroup(groups: seq<Group>, i: nat)
    requires i < |groups|
    ensures Elems(groups[i]) <= Members(groups)
  {
    forall f | f in groups[i] ensures f in Members(groups) { }
  }
}
