/** The loops that evaluate groups and partitions, each against its meaning in `Domain`. */
module Evaluation {
  import opened Sums
  import opened Domain

  method GroupMemoryMB(s: Store, group: Group) returns (max: nat)
    ensures max == GroupMemory(s, group)
  {
    max := 0;
    for i := 0 to |group|
      invariant max == GroupMemory(s, group[..i])
    {
      assert group[..i + 1][..i] == group[..i];
      if At(s, group[i]).memoryMB > max {
        max := At(s, group[i]).memoryMB;
      }
    }
    assert group[..|group|] == group;
  }

  method RuntimeMs(s: Store, group: Group) returns (total: nat)
    ensures total == GroupRuntimeMs(s, group)
  {
    total := 0;
    for i := 0 to |group|
      invariant total == GroupRuntimeMs(s, group[..i])
    {
      assert group[..i + 1][..i] == group[..i];
      total := total + At(s, group[i]).runtimeMs;
    }
    assert group[..|group|] == group;
  }

  method GroupExecutionCost(s: Store, group: Group) returns (cost: real)
    ensures cost == GroupExecutionCostUSD(s, group)
  {
    var memory := GroupMemoryMB(s, group);
    var runtime := RuntimeMs(s, group);
    cost := ExecutionCostUSD(memory, runtime);
  }

  method InvocationRate(s: Store, group: Group) returns (rate: real)
    ensures rate == BlockInvocationRate(s, group)
  {
    var inGroup: set<Id> := {};
    for i := 0 to |group|
      invariant inGroup == Elems(group[..i])
    {
      inGroup := inGroup + {group[i]};
    }
    assert group[..|group|] == group;
    rate := 0.0;
    for i := 0 to |group|
      invariant rate == SeqSum(group[..i], EntryRate(s, Elems(group)))
    {
      SeqSumPrefix(group, i, EntryRate(s, Elems(group)));
      var parent := At(s, group[i]).parent;
      if parent.None? || parent.value !in inGroup {
        rate := rate + Rate(s, group[i]);
      }
    }
  }

  method RequestCost(s: Store, group: Group) returns (cost: real)
    ensures cost == RequestCostUSD(s, group)
  {
    var rate := InvocationRate(s, group);
    cost := RequestCharge(rate);
  }

  method TransferSaved(s: Store, a: Group, b: Group) returns (saved: real)
    ensures saved == SeqSum(a, SeqRow(b, Exchange(s)))
  {
    saved := 0.0;
    for i := 0 to |a|
      invariant saved == SeqSum(a[..i], SeqRow(b, Exchange(s)))
    {
      SeqSumPrefix(a, i, SeqRow(b, Exchange(s)));
      ghost var before := saved;
      for j := 0 to |b|
        invariant saved == before + SeqSum(b[..j], Fix(Exchange(s), a[i]))
      {
        SeqSumPrefix(b, j, Fix(Exchange(s), a[i]));
        saved := saved + DataTransferCostUSD(s, a[i], b[j]);
        saved := saved + DataTransferCostUSD(s, b[j], a[i]);
      }
      assert b[..|b|] == b;
    }
    assert a[..|a|] == a;
  }

  method MergeProfit(s: Store, a: Group, b: Group) returns (profit: real)
    ensures profit == MergeProfitUSD(s, a, b)
  {
    var execM := GroupExecutionCost(s, a + b);
    var execA := GroupExecutionCost(s, a);
    var execB := GroupExecutionCost(s, b);
    var reqA := RequestCost(s, a);
    var reqB := RequestCost(s, b);
    var reqM := RequestCost(s, a + b);
    var saved := TransferSaved(s, a, b);
    profit := saved + (reqA + reqB - reqM) - (execM - execA - execB);
  }

  method MergeIsProfitable(s: Store, a: Group, b: Group) returns (yes: bool)
    ensures yes <==> MergeProfitUSD(s, a, b) > 0.0
  {
    var profit := MergeProfit(s, a, b);
    yes := profit > 0.0;
  }

  /** The map is the true inverse of the groups: last writer wins where groups overlap. */
  method FuncToGroupIndex(groups: seq<Group>) returns (m: map<Id, nat>)
    ensures forall f :: f in m <==> Owner(groups, f).Some?
    ensures forall f :: f in m ==> m[f] == Owner(groups, f).value
  {
    m := map[];
    for i := 0 to |groups|
      invariant forall f :: f in m <==> Owner(groups[..i], f).Some?
      invariant forall f :: f in m ==> m[f] == Owner(groups[..i], f).value
    {
      assert groups[..i + 1][..i] == groups[..i];
      ghost var before := m;
      for k := 0 to |groups[i]|
        invariant forall f :: f in m <==> f in before || f in groups[i][..k]
        invariant forall f :: f in m ==> m[f] == if f in groups[i][..k] then i else before[f]
      {
        m := m[groups[i][k] := i];
      }
    }
    assert groups[..|groups|] == groups;
  }

  method IndexOf(functions: seq<Id>) returns (idx: map<Id, nat>)
    ensures forall f :: f in idx <==> f in functions
    ensures forall f :: LastIndex(functions, f) == if f in idx then idx[f] else 0
  {
    idx := map[];
    for i := 0 to |functions|
      invariant forall f :: f in idx <==> f in functions[..i]
      invariant forall f :: LastIndex(functions[..i], f) == if f in idx then idx[f] else 0
    {
      assert functions[..i + 1] == functions[..i] + [functions[i]];
      assert functions[..i + 1][..i] == functions[..i];
      idx := idx[functions[i] := i];
    }
    assert functions[..|functions|] == functions;
  }

  method CriticalPathFunctions(app: Application) returns (path: seq<Id>)
    ensures path == CriticalPath(app)
  {
    path := [];
    var ids := app.criticalPathIDs;
    for i := 0 to |ids|
      invariant path == Known(app.functions, ids[..i])
    {
      assert ids[..i + 1][..i] == ids[..i];
      if ids[i] in app.functions {
        path := path + [ids[i]];
      }
    }
    assert ids[..|ids|] == ids;
  }

  method FindRoot(app: Application) returns (root: Option<Id>)
    ensures root == RootFunction(app)
  {
    root := None;
    var fs := app.functions;
    for i := 0 to |fs|
      invariant root.None? && FirstParentless(app.nodes, fs[..i]) == None
    {
      assert fs[..i + 1][..i] == fs[..i];
      if At(app.nodes, fs[i]).parent.None? {
        FirstStays(app.nodes, fs, i + 1);
        return Some(fs[i]);
      }
    }
    assert fs[..|fs|] == fs;
  }

  lemma {:induction false} FirstStays(s: Store, fs: seq<Id>, i: nat)
    requires i <= |fs| && FirstParentless(s, fs[..i]).Some?
    ensures FirstParentless(s, fs) == FirstParentless(s, fs[..i])
    decreases |fs|
  {
    if i < |fs| {
      assert fs[..|fs| - 1][..i] == fs[..i];
      FirstStays(s, fs[..|fs| - 1], i);
    } else {
      assert fs[..i] == fs;
    }
  }

  method CutCost(app: Application, groups: seq<Group>) returns (cost: real)
    ensures cost == SeqSum(app.functions, CutCharge(app.nodes, groups))
  {
    var groupOf := FuncToGroupIndex(groups);
    cost := 0.0;
    for i := 0 to |app.functions|
      invariant cost == SeqSum(app.functions[..i], CutCharge(app.nodes, groups))
    {
      var f := app.functions[i];
      var children := At(app.nodes, f).children;
      SeqSumPrefix(app.functions, i, CutCharge(app.nodes, groups));
      ghost var before := cost;
      for k := 0 to |children|
        invariant cost == before + SeqSum(children[..k], CutEdgeCharge(app.nodes, groups, f))
      {
        SeqSumPrefix(children, k, CutEdgeCharge(app.nodes, groups, f));
        var c := children[k];
        if f in groupOf && c in groupOf && GroupID(groups[groupOf[f]]) != GroupID(groups[groupOf[c]]) {
          cost := cost + DataTransferCostUSD(app.nodes, f, c);
        }
      }
      assert children[..|children|] == children;
    }
    assert app.functions[..|app.functions|] == app.functions;
  }

  method CutsOnPath(groups: seq<Group>, path: seq<Id>) returns (cuts: nat)
    ensures cuts == PathCuts(groups, path)
  {
    cuts := 0;
    var i := 0;
    while i < |path| - 1
      invariant 0 <= i <= |path| && (|path| > 0 ==> i <= |path| - 1)
      invariant |path| > 0 ==> cuts == PathCuts(groups, path[..i + 1])
      invariant |path| == 0 ==> cuts == 0
    {
      assert path[..i + 2][..i + 1] == path[..i + 1];
      if IsCut(groups, path[i], path[i + 1]) {
        cuts := cuts + 1;
      }
      i := i + 1;
    }
    assert |path| > 0 ==> path[..i + 1] == path;
  }

  method TotalCost(app: Application, groups: seq<Group>) returns (totalCost: real)
    ensures totalCost == TotalCostUSD(app, groups)
  {
    totalCost := 0.0;
    for i := 0 to |groups|
      invariant totalCost == SeqSum(groups[..i], BlockCharge(app.nodes))
    {
      hide GroupExecutionCostUSD, RequestCostUSD;
      SeqSumPrefix(groups, i, BlockCharge(app.nodes));
      var execution := GroupExecutionCost(app.nodes, groups[i]);
      var requests := RequestCost(app.nodes, groups[i]);
      totalCost := totalCost + execution + requests;
    }
    assert groups[..|groups|] == groups;
    var cut := CutCost(app, groups);
    totalCost := totalCost + cut;
  }

  method EveryGroupFits(app: Application, groups: seq<Group>) returns (memOK: bool)
    ensures memOK <==> MemoryFits(app, groups)
  {
    memOK := true;
    for i := 0 to |groups|
      invariant memOK <==> MemoryFits(app, groups[..i])
    {
      assert groups[..i + 1] == groups[..i] + [groups[i]];
      var memory := GroupMemoryMB(app.nodes, groups[i]);
      if memory > app.maxMemoryMB {
        memOK := false;
      }
    }
    assert groups[..|groups|] == groups;
  }

  /** The whole evaluation of a proposed list of groups, whatever the groups are. */
  method CalculateMetrics(app: Application, groups: seq<Group>) returns (m: Metrics)
    ensures m == MetricsOf(app, groups)
  {
    var totalCost := TotalCost(app, groups);
    var path := CriticalPathFunctions(app);
    var runtime := RuntimeMs(app.nodes, path);
    var hops := CutsOnPath(groups, path);
    var latency := runtime + hops * app.networkHopMS;
    var latOK := path == [] || latency <= app.maxLatencyMS;
    var memOK := EveryGroupFits(app, groups);
    m := Metrics(totalCost, latency, memOK && latOK);
  }
}
