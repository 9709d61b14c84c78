/** What `TotalCostUSD` means: a bill per function that depends only on the block the function is in. */
module Billing {
  import opened Sums
  import opened Domain

  // ---- groups as sets ----

  ghost function MaxMemory(s: Store, b: set<Id>): (m: nat)
    ensures forall f :: f in b ==> At(s, f).memoryMB <= m
    ensures m == 0 || exists f :: f in b && At(s, f).memoryMB == m
  {
    if b == {} then 0 else
    var f :| f in b;
    assert b == {f} + (b - {f});
    Max(At(s, f).memoryMB, MaxMemory(s, b - {f}))
  }

  lemma GroupMemoryIsMaxMemory(s: Store, g: Group)
    ensures GroupMemory(s, g) == MaxMemory(s, Elems(g))
  {
    assert forall f :: f in g <==> f in Elems(g);
  }

  lemma MaxMemoryMonotone(s: Store, a: set<Id>, b: set<Id>)
    requires a <= b
    ensures MaxMemory(s, a) <= MaxMemory(s, b)
  { }

  ghost function RuntimeOf(s: Store): Id -> real {
    (f: Id) => At(s, f).runtimeMs as real
  }

  ghost function ExecutionShare(s: Store, memoryMB: nat): Id -> real {
    (f: Id) => ExecutionCostUSD(memoryMB, At(s, f).runtimeMs)
  }

  /** The price of `f`'s own duration at the memory of block `b`. */
  ghost function ExecutedAt(s: Store, b: set<Id>, f: Id): real {
    ExecutionCostUSD(MaxMemory(s, b), At(s, f).runtimeMs)
  }

  lemma {:induction false} GroupRuntimeIsSum(s: Store, g: Group)
    ensures GroupRuntimeMs(s, g) as real == SeqSum(g, RuntimeOf(s))
  {
    if g != [] {
      GroupRuntimeIsSum(s, g[..|g| - 1]);
    }
  }

  lemma ExecutionCostAdds(m: nat, r1: nat, r2: nat)
    ensures ExecutionCostUSD(m, r1 + r2) == ExecutionCostUSD(m, r1) + ExecutionCostUSD(m, r2)
  {
    var gb := m as real / 1024.0;
    assert (r1 + r2) as real / 1000.0 == r1 as real / 1000.0 + r2 as real / 1000.0;
    assert gb * ((r1 + r2) as real / 1000.0) == gb * (r1 as real / 1000.0) + gb * (r2 as real / 1000.0);
  }

  lemma ExecutionCostMonotone(m1: nat, m2: nat, r: nat)
    requires m1 <= m2
    ensures 0.0 <= ExecutionCostUSD(m1, r) <= ExecutionCostUSD(m2, r)
  {
    var g1, g2, t := m1 as real / 1024.0, m2 as real / 1024.0, r as real / 1000.0;
    assert 0.0 <= g1 <= g2 && t >= 0.0;
    assert 0.0 <= g1 * t <= g2 * t;
  }

  /** Each member pays for its own duration at the group's memory. */
  lemma {:induction false} ExecutionCostShared(s: Store, m: nat, g: Group)
    ensures ExecutionCostUSD(m, GroupRuntimeMs(s, g)) == SeqSum(g, ExecutionShare(s, m))
  {
    if g != [] {
      ExecutionCostShared(s, m, g[..|g| - 1]);
      ExecutionCostAdds(m, GroupRuntimeMs(s, g[..|g| - 1]), At(s, g[|g| - 1]).runtimeMs);
    }
  }

  // ---- families of groups ----

  lemma FamilyOwner(groups: seq<Group>, f: Id, i: nat)
    requires Family(groups)
    requires i < |groups| && f in groups[i]
    ensures Owner(groups, f) == Some(i)
  {
    var o := Owner(groups, f);
    assert o.Some?;
    var k :| 0 <= k < |groups[i]| && groups[i][k] == f;
    var l :| 0 <= l < |groups[o.value]| && groups[o.value][l] == f;
  }

  lemma FamilyBlock(groups: seq<Group>, f: Id, i: nat)
    requires Family(groups)
    requires i < |groups| && f in groups[i]
    ensures Block(groups, f) == Elems(groups[i])
  {
    FamilyOwner(groups, f, i);
  }

  /** Comparing canonical names is the same as asking whether two functions share a group. */
  lemma CutMeaning(groups: seq<Group>, u: Id, v: Id)
    requires Family(groups)
    ensures IsCut(groups, u, v) <==> u in Members(groups) && v in Members(groups) && !Together(groups, u, v)
    ensures IsCut(groups, u, v) <==> u in Members(groups) && v in Members(groups) - Block(groups, u)
  {
    var ou, ov := Owner(groups, u), Owner(groups, v);
    if ou.Some? && ov.Some? {
      var i, j := ou.value, ov.value;
      assert u in Members(groups) && v in Members(groups);
      assert groups[i][0] == groups[j][0] ==> i == j;
      if Together(groups, u, v) {
        var k :| 0 <= k < |groups| && u in groups[k] && v in groups[k];
        FamilyOwner(groups, u, k);
        FamilyOwner(groups, v, k);
      }
      if v in Block(groups, u) {
        FamilyOwner(groups, v, i);
      }
    }
  }

  lemma BlockIsTogether(groups: seq<Group>, u: Id, v: Id)
    requires Family(groups)
    ensures v in Block(groups, u) <==> Together(groups, u, v)
  {
    if Together(groups, u, v) {
      var k :| 0 <= k < |groups| && u in groups[k] && v in groups[k];
      FamilyOwner(groups, u, k);
    }
  }

  ghost function GroupTotal(h: Id -> real): Group -> real {
    (g: Group) => Sum(Elems(g), h)
  }

  lemma {:induction false} SumOverGroups(groups: seq<Group>, h: Id -> real)
    requires Family(groups)
    ensures Sum(Members(groups), h) == SeqSum(groups, GroupTotal(h))
  {
    if groups == [] {
      assert Members(groups) == {};
    } else {
      var init, last := groups[..|groups| - 1], groups[|groups| - 1];
      assert Family(init);
      SumOverGroups(init, h);
      assert Members(groups) == Members(init) + Elems(last) by {
        forall f | f in Members(groups) ensures f in Members(init) + Elems(last) {
          var i :| 0 <= i < |groups| && f in groups[i];
          if i < |init| { assert f in init[i]; }
        }
        forall f | f in Members(init) ensures f in Members(groups) {
          var i :| 0 <= i < |init| && f in init[i];
          assert f in groups[i];
        }
      }
      var n: nat := |init|;
      assert Members(init) !! Elems(last) by {
        forall f | f in Members(init) ensures f !in Elems(last) {
          var i :| 0 <= i < |init| && f in init[i];
          FamilyOwner(groups, f, i);
          if f in last { FamilyOwner(groups, f, n); }
        }
      }
      SumUnion(Members(init), Elems(last), h);
    }
  }

  lemma FamilyGroupDistinct(groups: seq<Group>, i: nat)
    requires Family(groups) && i < |groups|
    ensures Distinct(groups[i])
  { }

  lemma FamilySnoc(groups: seq<Group>, g: Group)
    requires Family(groups) && Distinct(g) && Elems(g) !! Members(groups)
    ensures Family(groups + [g]) && Members(groups + [g]) == Members(groups) + Elems(g)
    ensures forall f :: f in Members(groups) ==> Block(groups + [g], f) == Block(groups, f)
    ensures forall f :: f in g ==> Block(groups + [g], f) == Elems(g)
  {
    var all, n: nat := groups + [g], |groups|;
    forall i, k, j, l |
      0 <= i < |all| && 0 <= k < |all[i]| && 0 <= j < |all| && 0 <= l < |all[j]| && all[i][k] == all[j][l]
      ensures i == j && k == l
    {
      var f := all[i][k];
      if i < n { assert f in groups[i] && f in Members(groups); }
      if j < n { assert f in groups[j] && f in Members(groups); }
      if i == n || j == n { assert f in Elems(g); }
    }
    forall f ensures f in Members(all) <==> f in Members(groups) + Elems(g) {
      if f in Members(groups) {
        var i :| 0 <= i < n && f in groups[i];
        assert f in all[i];
      }
      if f in g { assert f in all[n]; }
      if f in Members(all) {
        var i :| 0 <= i < |all| && f in all[i];
        if i < n { assert f in groups[i]; }
      }
    }
    forall f | f in Members(groups) ensures Block(all, f) == Block(groups, f) {
      var i :| 0 <= i < n && f in groups[i];
      FamilyBlock(groups, f, i);
      assert all[i] == groups[i];
      FamilyBlock(all, f, i);
    }
    forall f | f in g ensures Block(all, f) == Elems(g) {
      FamilyBlock(all, f, n);
    }
  }

  // ---- bills ----

  ghost function Transfer(s: Store): (Id, Id) -> real {
    (f: Id, c: Id) => DataTransferCostUSD(s, f, c)
  }

  /** What `f` adds to the bill when its block is `b` and the deployed functions are `cover`. */
  ghost function FunctionBill(s: Store, cover: set<Id>, b: set<Id>, f: Id): real {
    ExecutedAt(s, b, f)
    + RequestCharge(EntryRateAt(s, b, f))
    + Sum(cover - b, Fix(Transfer(s), f))
  }

  ghost function Charged(rates: Id -> real): Id -> real {
    (f: Id) => RequestCharge(rates(f))
  }

  lemma {:induction false} SumCharged(b: set<Id>, rates: Id -> real)
    ensures Sum(b, Charged(rates)) == RequestCharge(Sum(b, rates))
    decreases b
  {
    if b != {} {
      var f :| f in b;
      SumRemove(b, rates, f);
      SumRemove(b, Charged(rates), f);
      SumCharged(b - {f}, rates);
    }
  }

  ghost function BillIn(s: Store, groups: seq<Group>): Id -> real {
    (f: Id) => FunctionBill(s, Members(groups), Block(groups, f), f)
  }

  ghost function BlockExecution(s: Store, b: set<Id>): real {
    Sum(b, ExecutionShare(s, MaxMemory(s, b)))
  }

  ghost function BlockRequests(s: Store, b: set<Id>): real {
    RequestCharge(Sum(b, EntryRate(s, b)))
  }

  /** A block's bill: execution, requests, and what leaves it for the rest of the cover. */
  ghost function BlockBill(s: Store, cover: set<Id>, b: set<Id>): real {
    BlockExecution(s, b) + BlockRequests(s, b) + Sum2(b, cover - b, Transfer(s))
  }

  ghost function BlockBillOf(s: Store, cover: set<Id>): Group -> real {
    (g: Group) => BlockBill(s, cover, Elems(g))
  }

  lemma NoEdgeNoTransfer(app: Application, f: Id, c: Id)
    requires WellFormed(app) && f in app.functions
    requires c !in At(app.nodes, f).children
    ensures DataTransferCostUSD(app.nodes, f, c) == 0.0
  {
    assert WellFormedNode(app, f);
    assert c !in At(app.nodes, f).dataOutBytes.Keys;
  }

  lemma TransferNonNegative(app: Application, f: Id, c: Id)
    requires WellFormed(app) && f in app.functions
    ensures DataTransferCostUSD(app.nodes, f, c) >= 0.0
  {
    assert WellFormedNode(app, f);
    var n := At(app.nodes, f);
    var bytes := if c in n.dataOutBytes then n.dataOutBytes[c] else 0;
    assert bytes as real / GIB >= 0.0;
  }

  lemma RatePositive(app: Application, f: Id)
    requires WellFormed(app) && f in app.functions
    ensures Rate(app.nodes, f) > 0.0
  {
    assert WellFormedNode(app, f);
  }

  /** The charges `f` pays on its cut edges are its transfers to the cover outside its block. */
  lemma CutChargeMeaning(app: Application, groups: seq<Group>, f: Id)
    requires WellFormed(app) && Family(groups) && Members(groups) <= Elems(app.functions)
    requires f in app.functions
    ensures CutCharge(app.nodes, groups)(f) ==
            if f in Members(groups) then Sum(Members(groups) - Block(groups, f), Fix(Transfer(app.nodes), f)) else 0.0
  {
    var s, kids := app.nodes, At(app.nodes, f).children;
    var charge := CutEdgeCharge(s, groups, f);
    assert WellFormedNode(app, f);
    SeqSumIsSum(kids, charge);
    forall c ensures IsCut(groups, f, c) <==> f in Members(groups) && c in Members(groups) - Block(groups, f) {
      CutMeaning(groups, f, c);
    }
    if f in Members(groups) {
      var outside := Members(groups) - Block(groups, f);
      var flow := Fix(Transfer(s), f);
      forall c | c in outside && c !in kids ensures flow(c) == 0.0 {
        NoEdgeNoTransfer(app, f, c);
      }
      SumRestrict(outside, outside * Elems(kids), flow);
      SumRestrict(Elems(kids), outside * Elems(kids), charge);
      SumCong(outside * Elems(kids), flow, charge);
    } else {
      SumZero(Elems(kids), charge);
    }
  }

  lemma BlockChargeMeaning(s: Store, g: Group)
    requires Distinct(g)
    ensures BlockCharge(s)(g) == BlockExecution(s, Elems(g)) + BlockRequests(s, Elems(g))
  {
    var m := GroupMemory(s, g);
    GroupMemoryIsMaxMemory(s, g);
    ExecutionCostShared(s, m, g);
    SeqSumIsSum(g, ExecutionShare(s, m));
    SeqSumIsSum(g, EntryRate(s, Elems(g)));
  }

  ghost function CrossIn(s: Store, groups: seq<Group>): Id -> real {
    (f: Id) => Sum(Members(groups) - Block(groups, f), Fix(Transfer(s), f))
  }

  lemma CutChargesSum(app: Application, groups: seq<Group>)
    requires WellFormed(app) && Family(groups) && Members(groups) <= Elems(app.functions)
    ensures SeqSum(app.functions, CutCharge(app.nodes, groups)) == Sum(Members(groups), CrossIn(app.nodes, groups))
  {
    var charge := CutCharge(app.nodes, groups);
    SeqSumIsSum(app.functions, charge);
    forall f | f in Elems(app.functions)
      ensures charge(f) == if f in Members(groups) then CrossIn(app.nodes, groups)(f) else 0.0
    {
      CutChargeMeaning(app, groups, f);
    }
    SumRestrict(Elems(app.functions), Members(groups), charge);
    SumCong(Members(groups), charge, CrossIn(app.nodes, groups));
  }

  lemma BlockBillIsSum(s: Store, cover: set<Id>, b: set<Id>, h: Id -> real)
    requires forall f :: f in b ==> h(f) == FunctionBill(s, cover, b, f)
    ensures BlockBill(s, cover, b) == Sum(b, h)
  {
    hide RequestCharge, ExecutionCostUSD, EntryRateAt;
    var exec := ExecutionShare(s, MaxMemory(s, b));
    var req := Charged(EntryRate(s, b));
    var both := (f: Id) => exec(f) + req(f);
    SumCharged(b, EntryRate(s, b));
    SumAdd(b, exec, req, both);
    SumAdd(b, both, Row(cover - b, Transfer(s)), h);
  }

  /** The bill of a family is a sum over its blocks, and over its functions; nothing else matters:
      not the order of groups, of members, nor which member names the group. */
  lemma CostIsSumOfBills(app: Application, groups: seq<Group>)
    requires WellFormed(app) && Family(groups) && Members(groups) <= Elems(app.functions)
    ensures TotalCostUSD(app, groups) == SeqSum(groups, BlockBillOf(app.nodes, Members(groups)))
    ensures TotalCostUSD(app, groups) == Sum(Members(groups), BillIn(app.nodes, groups))
  {
    var s, cover := app.nodes, Members(groups);
    CutChargesSum(app, groups);
    SumOverGroups(groups, CrossIn(s, groups));
    forall g | g in groups
      ensures BlockBillOf(s, cover)(g) == BlockCharge(s)(g) + GroupTotal(CrossIn(s, groups))(g)
      ensures BlockBillOf(s, cover)(g) == GroupTotal(BillIn(s, groups))(g)
    {
      var i :| 0 <= i < |groups| && groups[i] == g;
      FamilyGroupDistinct(groups, i);
      BlockChargeMeaning(s, g);
      forall f | f in g ensures Block(groups, f) == Elems(g) { FamilyBlock(groups, f, i); }
      SumCong(Elems(g), CrossIn(s, groups), Row(cover - Elems(g), Transfer(s)));
      BlockBillIsSum(s, cover, Elems(g), BillIn(s, groups));
    }
    SeqSumAdd(groups, BlockCharge(s), GroupTotal(CrossIn(s, groups)), BlockBillOf(s, cover));
    SeqSumCong(groups, BlockBillOf(s, cover), GroupTotal(BillIn(s, groups)));
    SumOverGroups(groups, BillIn(s, groups));
  }

  // ---- merging two groups ----

  /** What joining two blocks saves: the bytes between them, and what they were charged apart less
      what they are charged together. */
  ghost function BlockProfit(s: Store, a: set<Id>, b: set<Id>): real {
    Sum2(a, b, Transfer(s)) + Sum2(b, a, Transfer(s)) + BlockExecution(s, a) + BlockRequests(s, a)
    + BlockExecution(s, b) + BlockRequests(s, b) - BlockExecution(s, a + b) - BlockRequests(s, a + b)
  }

  lemma DisjointConcatenation(a: Group, b: Group)
    requires Distinct(a) && Distinct(b) && Elems(a) !! Elems(b)
    ensures Distinct(a + b) && Elems(a + b) == Elems(a) + Elems(b)
  {
    forall i, j | 0 <= i < j < |a + b| ensures (a + b)[i] != (a + b)[j] {
      if i < |a| <= j { assert a[i] in Elems(a) && b[j - |a|] in Elems(b); }
    }
  }

  lemma MergeProfitBySets(s: Store, a: Group, b: Group)
    requires Distinct(a) && Distinct(b) && Elems(a) !! Elems(b)
    ensures MergeProfitUSD(s, a, b) == BlockProfit(s, Elems(a), Elems(b))
  {
    hide BlockExecution, BlockRequests, Sum2, Distinct, Elems, GroupExecutionCostUSD, RequestCostUSD;
    BlockChargeMeaning(s, a);
    BlockChargeMeaning(s, b);
    DisjointConcatenation(a, b);
    BlockChargeMeaning(s, a + b);
    TransferSavedBySets(s, a, b);
  }

  lemma TransferSavedBySets(s: Store, a: Group, b: Group)
    requires Distinct(a) && Distinct(b)
    ensures SeqSum(a, SeqRow(b, Exchange(s))) ==
            Sum2(Elems(a), Elems(b), Transfer(s)) + Sum2(Elems(b), Elems(a), Transfer(s))
  {
    var t, back := Transfer(s), Flip(Transfer(s));
    SeqSumIsSum(a, SeqRow(b, Exchange(s)));
    forall f | f in Elems(a)
      ensures SeqRow(b, Exchange(s))(f) == Row(Elems(b), t)(f) + Row(Elems(b), back)(f)
    {
      SeqSumIsSum(b, Fix(Exchange(s), f));
      SumAdd(Elems(b), Fix(t, f), Fix(back, f), Fix(Exchange(s), f));
    }
    SumAdd(Elems(a), Row(Elems(b), t), Row(Elems(b), back), SeqRow(b, Exchange(s)));
    Sum2Swap(Elems(b), Elems(a), t);
  }

  lemma CrossingsOfUnion(cover: set<Id>, a: set<Id>, b: set<Id>, t: (Id, Id) -> real)
    requires a !! b && a + b <= cover
    ensures Sum2(a, cover - a, t) + Sum2(b, cover - b, t) - Sum2(a + b, cover - (a + b), t)
            == Sum2(a, b, t) + Sum2(b, a, t)
  {
    var rest := cover - (a + b);
    assert cover - a == b + rest && cover - b == a + rest;
    Sum2SplitRight(a, b, rest, t);
    Sum2SplitRight(b, a, rest, t);
    Sum2SplitLeft(a, b, rest, t);
  }

  /** Two blocks of the cover become one: the bill falls by exactly the merge profit. */
  lemma MergeProfitIsBillDrop(s: Store, cover: set<Id>, a: Group, b: Group)
    requires Distinct(a) && Distinct(b) && Elems(a) !! Elems(b) && Elems(a) + Elems(b) <= cover
    ensures BlockBill(s, cover, Elems(a)) + BlockBill(s, cover, Elems(b))
            - BlockBill(s, cover, Elems(a) + Elems(b)) == MergeProfitUSD(s, a, b)
  {
    MergeProfitBySets(s, a, b);
    CrossingsOfUnion(cover, Elems(a), Elems(b), Transfer(s));
  }
}
