/** Which merges the greedy pass makes, in the order it makes them. */
module MergeGate {
  import opened Domain
  import opened Billing
  import opened Merging
  import opened GreedyTPRuns

  /** Two different groups holding the ends of a candidate, which fit together and gain by it. */
  ghost predicate ShouldMerge(app: Application, gs: seq<Group>, c: Candidate, i: nat, j: nat) {
    && i < |gs| && j < |gs| && i != j && c.parent in gs[i] && c.child in gs[j]
    && GroupMemory(app.nodes, gs[i] + gs[j]) <= app.maxMemoryMB
    && MergeProfitUSD(app.nodes, gs[i], gs[j]) > 0.0
  }

  /** One candidate joins its two groups exactly when they fit together and gain by it, and joins nothing
      else: every such merge is made, and only such. */
  lemma StepJoinsExactly(app: Application, gs: seq<Group>, c: Candidate, u: Id, v: Id)
    requires Family(gs)
    ensures Together(MergeStep(app, gs, c), u, v) <==>
      || Together(gs, u, v)
      || exists i: nat, j: nat :: ShouldMerge(app, gs, c, i, j)
           && ((u in gs[i] && v in gs[j]) || (u in gs[j] && v in gs[i]))
  {
    hide MergeProfitUSD, Together, Merged, GroupMemory;
    var p, q := Owner(gs, c.parent), Owner(gs, c.child);
    forall i: nat, j: nat | ShouldMerge(app, gs, c, i, j) ensures p == Some(i) && q == Some(j) {
      FamilyOwner(gs, c.parent, i);
      FamilyOwner(gs, c.child, j);
    }
    if p.Some? && q.Some? && p != q {
      JointMemory(app.nodes, gs[p.value], gs[q.value]);
      MergedTogether(gs, p.value, q.value, u, v);
      assert Accepts(app, gs, c) <==> ShouldMerge(app, gs, c, p.value, q.value);
    }
  }

  lemma JointMemory(s: Store, a: Group, b: Group)
    ensures GroupMemory(s, a + b) == Max(GroupMemory(s, a), GroupMemory(s, b))
  {
    var m := GroupMemory(s, a + b);
    assert forall f :: f in a + b <==> f in a || f in b;
  }

  /** The pass takes its candidates from first to last, each on what the ones before it left. */
  lemma PassInOrder(app: Application, gs: seq<Group>, cs: seq<Candidate>, k: nat)
    requires k < |cs|
    ensures MergeAll(app, gs, cs[..0]) == gs
    ensures MergeAll(app, gs, cs[..k + 1]) == MergeStep(app, MergeAll(app, gs, cs[..k]), cs[k])
  {
    assert cs[..k + 1][..k] == cs[..k];
  }
}
