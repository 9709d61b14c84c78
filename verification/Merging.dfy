/** Merging two groups of a family, and the greedy pass over candidate edges. */
module Merging {
  import opened Sums
  import opened Domain
  import opened Billing

  // ---- swap-with-last removal ----

  function Removed<T>(xs: seq<T>, idx: nat): seq<T>
    requires idx < |xs|
  {
    xs[idx := xs[|xs| - 1]][..|xs| - 1]
  }

  lemma SeqSumSplit<T>(xs: seq<T>, i: nat, h: T -> real)
    requires i < |xs|
    ensures SeqSum(xs, h) == SeqSum(xs[..i], h) + h(xs[i]) + SeqSum(xs[i + 1..], h)
  {
    hide SeqSum;
    assert xs == xs[..i] + [xs[i]] + xs[i + 1..];
    SeqSumAppend(xs[..i] + [xs[i]], xs[i + 1..], h);
    SeqSumSnoc(xs[..i], xs[i], h);
  }

  lemma SeqSumUpdate<T>(xs: seq<T>, i: nat, v: T, h: T -> real)
    requires i < |xs|
    ensures SeqSum(xs[i := v], h) == SeqSum(xs, h) - h(xs[i]) + h(v)
  {
    hide SeqSum;
    SeqSumSplit(xs, i, h);
    SeqSumSplit(xs[i := v], i, h);
    assert xs[i := v][..i] == xs[..i] && xs[i := v][i + 1..] == xs[i + 1..];
  }

  lemma SeqSumLast<T>(xs: seq<T>, h: T -> real)
    requires xs != []
    ensures SeqSum(xs, h) == SeqSum(xs[..|xs| - 1], h) + h(xs[|xs| - 1])
  { }

  /** Removal takes away exactly the element at `idx`, in every sum. */
  lemma SeqSumRemoved<T>(xs: seq<T>, idx: nat, h: T -> real)
    requires idx < |xs|
    ensures SeqSum(Removed(xs, idx), h) == SeqSum(xs, h) - h(xs[idx])
  {
    hide SeqSum;
    var n := |xs| - 1;
    var filled := xs[idx := xs[n]];
    SeqSumUpdate(xs, idx, xs[n], h);
    SeqSumLast(filled, h);
    assert filled[n] == xs[n];
  }

  // ---- merging ----

  /** `groups[i]` takes the members of `groups[j]`, whose slot the last group fills. */
  function Merged(groups: seq<Group>, i: nat, j: nat): seq<Group>
    requires i < |groups| && j < |groups|
  {
    Removed(groups[i := groups[i] + groups[j]], j)
  }

  lemma MoveKeepsFamily(groups: seq<Group>, i: nat, j: nat, moved: seq<Group>)
    requires Family(groups) && i < |groups| && j < |groups| && i != j
    requires moved == groups[i := groups[i] + groups[j]][j := []]
    ensures Family(moved) && Members(moved) == Members(groups)
    ensures forall u, v :: Together(groups, u, v) ==> Together(moved, u, v)
  {
    assert forall k :: 0 <= k < |groups| && k != i && k != j ==> moved[k] == groups[k];
    forall u, v | Together(groups, u, v) ensures Together(moved, u, v) {
      var k :| 0 <= k < |groups| && u in groups[k] && v in groups[k];
      var k' := if k == j then i else k;
      assert u in moved[k'] && v in moved[k'];
    }
    forall f ensures f in Members(moved) <==> f in Members(groups) {
      if f in Members(groups) {
        assert Together(groups, f, f);
        assert Together(moved, f, f);
      }
      if f in Members(moved) {
        var k :| 0 <= k < |moved| && f in moved[k];
        assert f in groups[k] || (k == i && f in groups[j]);
      }
    }
    forall p, k, q, l |
      0 <= p < |moved| && 0 <= k < |moved[p]| && 0 <= q < |moved| && 0 <= l < |moved[q]| && moved[p][k] == moved[q][l]
      ensures p == q && k == l
    {
      var na := |groups[i]|;
      var p', k' := if p == i && k >= na then j else p, if p == i && k >= na then k - na else k;
      var q', l' := if q == i && l >= na then j else q, if q == i && l >= na then l - na else l;
      assert groups[p'][k'] == groups[q'][l'];
    }
  }

  lemma DropEmptyKeepsFamily(groups: seq<Group>, j: nat)
    requires Family(groups) && j < |groups| && groups[j] == []
    ensures Family(Removed(groups, j)) && Members(Removed(groups, j)) == Members(groups)
    ensures forall u, v :: Together(groups, u, v) ==> Together(Removed(groups, j), u, v)
  {
    var rest, n := Removed(groups, j), |groups| - 1;
    forall u, v | Together(groups, u, v) ensures Together(rest, u, v) {
      var k :| 0 <= k < |groups| && u in groups[k] && v in groups[k];
      var k' := if k == n then j else k;
      assert u in rest[k'] && v in rest[k'];
    }
    forall f ensures f in Members(rest) <==> f in Members(groups) {
      if f in Members(groups) {
        assert Together(groups, f, f);
        assert Together(rest, f, f);
      }
      if f in Members(rest) {
        var k :| 0 <= k < |rest| && f in rest[k];
        assert f in groups[if k == j then n else k];
      }
    }
    forall p, k, q, l |
      0 <= p < |rest| && 0 <= k < |rest[p]| && 0 <= q < |rest| && 0 <= l < |rest[q]| && rest[p][k] == rest[q][l]
      ensures p == q && k == l
    {
      var p', q' := if p == j then n else p, if q == j then n else q;
      assert groups[p'][k] == groups[q'][l];
    }
  }

  /** An accepted merge conserves the partition: same members, still disjoint, one group fewer,
      and no pair of functions is ever separated again. */
  lemma MergedConserves(groups: seq<Group>, i: nat, j: nat)
    requires Family(groups) && i < |groups| && j < |groups| && i != j
    ensures |Merged(groups, i, j)| == |groups| - 1
    ensures Family(Merged(groups, i, j)) && Members(Merged(groups, i, j)) == Members(groups)
    ensures forall u, v :: Together(groups, u, v) ==> Together(Merged(groups, i, j), u, v)
    ensures forall u, v :: u in groups[i] && v in groups[j] ==> Together(Merged(groups, i, j), u, v)
  {
    var moved := groups[i := groups[i] + groups[j]][j := []];
    MoveKeepsFamily(groups, i, j, moved);
    DropEmptyKeepsFamily(moved, j);
    assert Merged(groups, i, j) == Removed(moved, j);
    forall u, v | u in groups[i] && v in groups[j] ensures Together(Merged(groups, i, j), u, v) {
      assert u in moved[i] && v in moved[i];
      assert Together(moved, u, v);
    }
  }

  lemma MergedSum(groups: seq<Group>, i: nat, j: nat, h: Group -> real)
    requires i < |groups| && j < |groups| && i != j
    ensures SeqSum(Merged(groups, i, j), h)
            == SeqSum(groups, h) - h(groups[i]) - h(groups[j]) + h(groups[i] + groups[j])
  {
    SeqSumUpdate(groups, i, groups[i] + groups[j], h);
    SeqSumRemoved(groups[i := groups[i] + groups[j]], j, h);
  }

  lemma FamilyGroupsDisjoint(groups: seq<Group>, i: nat, j: nat)
    requires Family(groups) && i < |groups| && j < |groups| && i != j
    ensures Elems(groups[i]) !! Elems(groups[j])
    ensures Elems(groups[i]) + Elems(groups[j]) <= Members(groups)
  {
    forall f | f in groups[i] ensures f !in groups[j] {
      FamilyOwner(groups, f, i);
      if f in groups[j] { FamilyOwner(groups, f, j); }
    }
  }

  /** `MergeProfitUSD` is exactly the drop in the whole application's bill, for any family of
      disjoint groups, covering or not. */
  lemma MergeProfitIsCostDrop(app: Application, groups: seq<Group>, i: nat, j: nat)
    requires WellFormed(app) && Family(groups) && Members(groups) <= Elems(app.functions)
    requires i < |groups| && j < |groups| && i != j
    ensures TotalCostUSD(app, groups) - TotalCostUSD(app, Merged(groups, i, j))
            == MergeProfitUSD(app.nodes, groups[i], groups[j])
  {
    hide TotalCostUSD, MergeProfitUSD, BlockBill;
    var a, b := groups[i], groups[j];
    MergedConserves(groups, i, j);
    CostIsSumOfBills(app, groups);
    CostIsSumOfBills(app, Merged(groups, i, j));
    MergedSum(groups, i, j, BlockBillOf(app.nodes, Members(groups)));
    FamilyGroupsDisjoint(groups, i, j);
    FamilyGroupDistinct(groups, i);
    FamilyGroupDistinct(groups, j);
    MergeProfitIsBillDrop(app.nodes, Members(groups), a, b);
    assert Elems(a + b) == Elems(a) + Elems(b);
  }

  // ---- the greedy pass ----

  datatype Candidate = Candidate(cost: real, parent: Id, child: Id)

  ghost predicate Accepts(app: Application, groups: seq<Group>, c: Candidate) {
    var p, q := Owner(groups, c.parent), Owner(groups, c.child);
    && p.Some? && q.Some? && p != q
    && Max(GroupMemory(app.nodes, groups[p.value]), GroupMemory(app.nodes, groups[q.value])) <= app.maxMemoryMB
    && MergeProfitUSD(app.nodes, groups[p.value], groups[q.value]) > 0.0
  }

  ghost function MergeStep(app: Application, groups: seq<Group>, c: Candidate): seq<Group> {
    if Accepts(app, groups, c)
    then Merged(groups, Owner(groups, c.parent).value, Owner(groups, c.child).value)
    else groups
  }

  ghost function MergeAll(app: Application, groups: seq<Group>, cs: seq<Candidate>): seq<Group> {
    if cs == [] then groups
    else MergeStep(app, MergeAll(app, groups, cs[..|cs| - 1]), cs[|cs| - 1])
  }

  ghost function AcceptedCount(app: Application, groups: seq<Group>, cs: seq<Candidate>): nat {
    if cs == [] then 0
    else AcceptedCount(app, groups, cs[..|cs| - 1])
         + if Accepts(app, MergeAll(app, groups, cs[..|cs| - 1]), cs[|cs| - 1]) then 1 else 0
  }

  /** Whatever the candidate order, the pass keeps the members, only ever joins groups, loses one
      group per accepted merge and never raises the bill. */
  lemma {:induction false} MergeAllConserves(app: Application, groups: seq<Group>, cs: seq<Candidate>)
    requires WellFormed(app) && Family(groups) && Members(groups) <= Elems(app.functions)
    ensures var gs := MergeAll(app, groups, cs);
      && Family(gs) && Members(gs) == Members(groups)
      && |gs| == |groups| - AcceptedCount(app, groups, cs)
      && TotalCostUSD(app, gs) <= TotalCostUSD(app, groups)
      && forall u, v :: Together(groups, u, v) ==> Together(gs, u, v)
  {
    if cs != [] {
      var c := cs[|cs| - 1];
      MergeAllConserves(app, groups, cs[..|cs| - 1]);
      var gs := MergeAll(app, groups, cs[..|cs| - 1]);
      if Accepts(app, gs, c) {
        var i, j := Owner(gs, c.parent).value, Owner(gs, c.child).value;
        MergedConserves(gs, i, j);
        MergeProfitIsCostDrop(app, gs, i, j);
      }
    }
  }

  lemma MergedFits(app: Application, groups: seq<Group>, i: nat, j: nat)
    requires MemoryFits(app, groups) && i < |groups| && j < |groups|
    ensures MemoryFits(app, Merged(groups, i, j))
  {
    var s, a, b := app.nodes, groups[i], groups[j];
    assert GroupMemory(s, a + b) <= Max(GroupMemory(s, a), GroupMemory(s, b)) by {
      assert forall f :: f in a + b ==> f in a || f in b;
    }
    forall g | g in Merged(groups, i, j) ensures GroupMemory(s, g) <= app.maxMemoryMB {
      if g != a + b { assert g in groups; }
    }
  }

  /** The gate on `max` of the two memories keeps every group within the cap if it started there. */
  lemma {:induction false} MergeAllFits(app: Application, groups: seq<Group>, cs: seq<Candidate>)
    requires MemoryFits(app, groups)
    ensures MemoryFits(app, MergeAll(app, groups, cs))
  {
    if cs != [] {
      MergeAllFits(app, groups, cs[..|cs| - 1]);
      var gs, c := MergeAll(app, groups, cs[..|cs| - 1]), cs[|cs| - 1];
      if Accepts(app, gs, c) {
        MergedFits(app, gs, Owner(gs, c.parent).value, Owner(gs, c.child).value);
      }
    }
  }
}
