/** Applications that list a call twice: the bill charges each listing, the merge profit one. */
module RepeatedCalls {
  import opened Sums
  import opened Domain
  import opened Billing
  import opened Merging
  import opened Coarsening

  // ---- counting every call once ----

  /** The first occurrences. */
  function Firsts(xs: seq<Id>): seq<Id> {
    if xs == [] then [] else
    var init, last := Firsts(xs[..|xs| - 1]), xs[|xs| - 1];
    if last in xs[..|xs| - 1] then init else init + [last]
  }

  lemma {:induction false} FirstsMeaning(xs: seq<Id>)
    ensures Distinct(Firsts(xs)) && forall x :: x in Firsts(xs) <==> x in xs
  {
    if xs != [] {
      FirstsMeaning(xs[..|xs| - 1]);
      assert xs == xs[..|xs| - 1] + [xs[|xs| - 1]];
    }
  }

  function NodesOnce(s: Store): Store {
    map f | f in s :: s[f].(children := Firsts(s[f].children))
  }

  /** The same application with every call listed once. */
  function Once(app: Application): Application {
    app.(nodes := NodesOnce(app.nodes))
  }

  /** Well formed, except that a caller may list a callee more than once, as it does when a parsed
      graph repeats an edge. */
  ghost predicate CallsMayRepeat(app: Application) {
    WellFormed(Once(app))
  }

  lemma AtOnce(s: Store, f: Id)
    ensures At(NodesOnce(s), f) == At(s, f).(children := Firsts(At(s, f).children))
  { }

  lemma OnceNode(app: Application, f: Id)
    requires WellFormedNode(app, f)
    ensures WellFormedNode(Once(app), f)
  {
    AtOnce(app.nodes, f);
    FirstsMeaning(At(app.nodes, f).children);
    var p := At(app.nodes, f).parent;
    if p.Some? {
      AtOnce(app.nodes, p.value);
      FirstsMeaning(At(app.nodes, p.value).children);
    }
  }

  lemma WellFormedMayRepeat(app: Application)
    ensures WellFormed(app) ==> CallsMayRepeat(app)
  {
    hide WellFormedNode;
    if WellFormed(app) {
      forall f | f in app.functions ensures WellFormedNode(Once(app), f) { OnceNode(app, f); }
    }
  }

  // ---- what does not depend on how often a call is listed ----

  lemma RatesOnce(s: Store, inGroup: set<Id>, f: Id)
    ensures EntryRateAt(NodesOnce(s), inGroup, f) == EntryRateAt(s, inGroup, f)
  {
    AtOnce(s, f);
  }

  lemma TransferOnce(s: Store, f: Id, c: Id)
    ensures DataTransferCostUSD(NodesOnce(s), f, c) == DataTransferCostUSD(s, f, c)
  {
    AtOnce(s, f);
  }

  lemma {:induction false} RunOnce(s: Store, g: Group)
    ensures GroupMemory(NodesOnce(s), g) == GroupMemory(s, g)
    ensures GroupRuntimeMs(NodesOnce(s), g) == GroupRuntimeMs(s, g)
  {
    hide NodesOnce;
    if g != [] {
      RunOnce(s, g[..|g| - 1]);
      AtOnce(s, g[|g| - 1]);
    }
  }

  lemma GroupOnce(s: Store, g: Group)
    ensures GroupExecutionCostUSD(NodesOnce(s), g) == GroupExecutionCostUSD(s, g)
    ensures RequestCostUSD(NodesOnce(s), g) == RequestCostUSD(s, g)
    ensures BlockCharge(NodesOnce(s))(g) == BlockCharge(s)(g)
  {
    hide NodesOnce, EntryRateAt;
    RunOnce(s, g);
    forall f | f in g ensures EntryRate(NodesOnce(s), Elems(g))(f) == EntryRate(s, Elems(g))(f) {
      RatesOnce(s, Elems(g), f);
    }
    SeqSumCong(g, EntryRate(NodesOnce(s), Elems(g)), EntryRate(s, Elems(g)));
  }

  lemma ProfitOnce(s: Store, a: Group, b: Group)
    ensures MergeProfitUSD(NodesOnce(s), a, b) == MergeProfitUSD(s, a, b)
  {
    hide NodesOnce, GroupExecutionCostUSD, RequestCostUSD, DataTransferCostUSD;
    GroupOnce(s, a);
    GroupOnce(s, b);
    GroupOnce(s, a + b);
    forall x ensures SeqRow(b, Exchange(NodesOnce(s)))(x) == SeqRow(b, Exchange(s))(x) {
      forall y ensures Exchange(NodesOnce(s))(x, y) == Exchange(s)(x, y) {
        TransferOnce(s, x, y);
        TransferOnce(s, y, x);
      }
      SeqSumCong(b, Fix(Exchange(NodesOnce(s)), x), Fix(Exchange(s), x));
    }
    SeqSumCong(a, SeqRow(b, Exchange(NodesOnce(s))), SeqRow(b, Exchange(s)));
  }

  lemma {:induction false} PassOnce(app: Application, groups: seq<Group>, cs: seq<Candidate>)
    ensures MergeAll(Once(app), groups, cs) == MergeAll(app, groups, cs)
  {
    hide NodesOnce, MergeProfitUSD, GroupMemory, Owner;
    if cs != [] {
      var gs, c := MergeAll(app, groups, cs[..|cs| - 1]), cs[|cs| - 1];
      PassOnce(app, groups, cs[..|cs| - 1]);
      var p, q := Owner(gs, c.parent), Owner(gs, c.child);
      if p.Some? && q.Some? {
        RunOnce(app.nodes, gs[p.value]);
        RunOnce(app.nodes, gs[q.value]);
        ProfitOnce(app.nodes, gs[p.value], gs[q.value]);
      }
    }
  }

  lemma LatencyOnce(app: Application, groups: seq<Group>)
    ensures CriticalPath(Once(app)) == CriticalPath(app)
    ensures Latency(Once(app), groups) == Latency(app, groups)
    ensures Feasible(Once(app), groups) <==> Feasible(app, groups)
  {
    hide NodesOnce, GroupMemory, GroupRuntimeMs, PathCuts;
    RunOnce(app.nodes, CriticalPath(app));
    forall g ensures GroupMemory(NodesOnce(app.nodes), g) == GroupMemory(app.nodes, g) { RunOnce(app.nodes, g); }
  }

  // ---- what repetition adds to the bill ----

  /** What the listings of `f`'s calls beyond the first are charged. */
  ghost function RepeatCharge(s: Store, groups: seq<Group>): Id -> real {
    (f: Id) =>
      SeqSum(At(s, f).children, CutEdgeCharge(s, groups, f))
      - SeqSum(Firsts(At(s, f).children), CutEdgeCharge(s, groups, f))
  }

  lemma {:induction false} RepeatsMonotone(xs: seq<Id>, h: Id -> real, k: Id -> real)
    requires forall x :: x in xs ==> h(x) <= k(x)
    ensures SeqSum(xs, h) - SeqSum(Firsts(xs), h) <= SeqSum(xs, k) - SeqSum(Firsts(xs), k)
  {
    if xs != [] {
      var init, last := xs[..|xs| - 1], xs[|xs| - 1];
      RepeatsMonotone(init, h, k);
      if last !in init {
        SeqSumSnoc(Firsts(init), last, h);
        SeqSumSnoc(Firsts(init), last, k);
      }
    }
  }

  lemma CostOnce(app: Application, groups: seq<Group>)
    ensures TotalCostUSD(app, groups)
            == TotalCostUSD(Once(app), groups) + SeqSum(app.functions, RepeatCharge(app.nodes, groups))
  {
    hide NodesOnce, BlockCharge, IsCut, DataTransferCostUSD;
    var s, s' := app.nodes, NodesOnce(app.nodes);
    forall g | g in groups ensures BlockCharge(s')(g) == BlockCharge(s)(g) { GroupOnce(s, g); }
    SeqSumCong(groups, BlockCharge(s'), BlockCharge(s));
    forall f | f in app.functions
      ensures CutCharge(s, groups)(f) == CutCharge(s', groups)(f) + RepeatCharge(s, groups)(f)
    {
      AtOnce(s, f);
      forall c ensures CutEdgeCharge(s', groups, f)(c) == CutEdgeCharge(s, groups, f)(c) { TransferOnce(s, f, c); }
      SeqSumCong(Firsts(At(s, f).children), CutEdgeCharge(s', groups, f), CutEdgeCharge(s, groups, f));
    }
    SeqSumAdd(app.functions, CutCharge(s', groups), RepeatCharge(s, groups), CutCharge(s, groups));
  }

  /** Joining groups never adds to what repetition costs. */
  lemma RepeatsRefine(app: Application, p: seq<Group>, q: seq<Group>)
    requires CallsMayRepeat(app) && Family(p) && Family(q) && Members(p) == Members(q) && Refines(p, q)
    ensures SeqSum(app.functions, RepeatCharge(app.nodes, q)) <= SeqSum(app.functions, RepeatCharge(app.nodes, p))
  {
    hide IsCut, DataTransferCostUSD, WellFormedNode, NodesOnce, Family, Members, Refines;
    var s := app.nodes;
    forall f | f in app.functions ensures RepeatCharge(s, q)(f) <= RepeatCharge(s, p)(f) {
      forall c ensures CutEdgeCharge(s, q, f)(c) <= CutEdgeCharge(s, p, f)(c) {
        CutsRefine(p, q, f, c);
        TransferOnce(s, f, c);
        TransferNonNegative(Once(app), f, c);
      }
      RepeatsMonotone(At(s, f).children, CutEdgeCharge(s, q, f), CutEdgeCharge(s, p, f));
    }
    SeqSumLe(app.functions, RepeatCharge(s, q), RepeatCharge(s, p));
  }

  lemma CutsRefine(p: seq<Group>, q: seq<Group>, u: Id, v: Id)
    requires Family(p) && Family(q) && Members(p) == Members(q) && Refines(p, q)
    ensures IsCut(q, u, v) ==> IsCut(p, u, v)
  {
    hide IsCut;
    CutMeaning(p, u, v);
    CutMeaning(q, u, v);
  }

  // ---- what carries over ----

  /** With repeated calls a merge saves what repetition cost on top of its profit: the profit gate
      never accepts a merge that raises the bill. */
  lemma MergeProfitAtMostDrop(app: Application, groups: seq<Group>, i: nat, j: nat)
    requires CallsMayRepeat(app) && Family(groups) && Members(groups) <= Elems(app.functions)
    requires i < |groups| && j < |groups| && i != j
    ensures TotalCostUSD(app, groups) - TotalCostUSD(app, Merged(groups, i, j))
            == MergeProfitUSD(app.nodes, groups[i], groups[j])
               + SeqSum(app.functions, RepeatCharge(app.nodes, groups))
               - SeqSum(app.functions, RepeatCharge(app.nodes, Merged(groups, i, j)))
    ensures TotalCostUSD(app, groups) - TotalCostUSD(app, Merged(groups, i, j))
            >= MergeProfitUSD(app.nodes, groups[i], groups[j])
  {
    hide TotalCostUSD, MergeProfitUSD, NodesOnce, WellFormed, Family, Members, Merged, RepeatCharge, Together;
    MergedConserves(groups, i, j);
    MergeProfitIsCostDrop(Once(app), groups, i, j);
    ProfitOnce(app.nodes, groups[i], groups[j]);
    CostOnce(app, groups);
    CostOnce(app, Merged(groups, i, j));
    RepeatsRefine(app, groups, Merged(groups, i, j));
  }

  /** Whatever loses to doing nothing on no axis when calls are counted once, does so when they are
      listed more often. */
  lemma NoWorseWithRepeats(app: Application, groups: seq<Group>)
    requires CallsMayRepeat(app) && NoWorseThanAlone(Once(app), groups)
    ensures NoWorseThanAlone(app, groups)
  {
    hide TotalCostUSD, NodesOnce, Latency, Feasible, RepeatCharge, Family, Members, WellFormedNode, Refines;
    var none := Singles(app.functions);
    SinglesPartition(app);
    BaselinesBound(app, groups, app.functions);
    RepeatsRefine(app, none, groups);
    CostOnce(app, none);
    CostOnce(app, groups);
    LatencyOnce(app, none);
    LatencyOnce(app, groups);
  }
}
