/** The label-setting loop, its bookkeeping and why it stops. */
module CspSearch {
  import opened Domain
  import opened Evaluation
  import opened Families
  import opened Csp

  type Frontiers = map<Id, seq<CspLabel>>

  function FrontierAt(labels: Frontiers, v: Id): seq<CspLabel> {
    if v in labels then labels[v] else []
  }

  // ---- the queue ----

  function Pow3(n: nat): nat {
    if n == 0 then 1 else 3 * Pow3(n - 1)
  }

  /** How much searching an item can still cause: three times less at each step along the chain. */
  function Burden(chain: seq<Id>, it: Item): nat {
    Pow3(if LastIndex(chain, it.node) < |chain| then |chain| - LastIndex(chain, it.node) else 0)
  }

  function Weight(chain: seq<Id>, pq: seq<Item>): nat {
    if pq == [] then 0 else Weight(chain, pq[..|pq| - 1]) + Burden(chain, pq[|pq| - 1])
  }

  lemma WeightSnoc(chain: seq<Id>, pq: seq<Item>, it: Item)
    ensures Weight(chain, pq + [it]) == Weight(chain, pq) + Burden(chain, it)
  {
    assert (pq + [it])[..|pq|] == pq;
  }

  lemma {:induction false} WeightAppend(chain: seq<Id>, pq: seq<Item>, more: seq<Item>)
    ensures Weight(chain, pq + more) == Weight(chain, pq) + Weight(chain, more)
    decreases |more|
  {
    if more == [] {
      assert pq + more == pq;
    } else {
      var init, last := more[..|more| - 1], more[|more| - 1];
      WeightAppend(chain, pq, init);
      WeightSnoc(chain, pq + init, last);
      assert pq + more == pq + init + [last];
    }
  }

  lemma WeightRemove(chain: seq<Id>, pq: seq<Item>, k: nat)
    requires k < |pq|
    ensures Weight(chain, pq[..k] + pq[k + 1..]) == Weight(chain, pq) - Burden(chain, pq[k])
  {
    WeightAppend(chain, pq[..k], pq[k + 1..]);
    WeightSnoc(chain, pq[..k], pq[k]);
    WeightAppend(chain, pq[..k] + [pq[k]], pq[k + 1..]);
    assert pq == pq[..k] + [pq[k]] + pq[k + 1..];
  }

  /** Some item of least cost leaves the heap; callers learn nothing about how ties fall. */
  method PopMin(pq: seq<Item>) returns (item: Item, rest: seq<Item>, ghost k: nat)
    requires pq != []
    ensures k < |pq| && item == pq[k] && rest == pq[..k] + pq[k + 1..]
    ensures forall i :: 0 <= i < |pq| ==> item.mark.cost <= pq[i].mark.cost
  {
    var best := 0;
    for i := 1 to |pq|
      invariant best < |pq|
      invariant forall j :: 0 <= j < i ==> pq[best].mark.cost <= pq[j].mark.cost
    {
      if pq[i].mark.cost < pq[best].mark.cost {
        best := i;
      }
    }
    item, rest, k := pq[best], pq[..best] + pq[best + 1..], best;
  }

  // ---- bookkeeping ----

  /** Every label ever generated means what it says. */
  ghost predicate Sound(app: Application, chain: seq<Id>, generated: set<Item>) {
    forall it :: it in generated ==> LabelOK(app, chain, it.node, it.mark)
  }

  /** Frontiers are antichains of generated labels, and dominate everything ever generated. */
  ghost predicate Tracks(labels: Frontiers, generated: set<Item>) {
    && (forall id :: id in labels ==> Antichain(labels[id]))
    && (forall id, l :: id in labels && l in labels[id] ==> Item(id, l) in generated)
    && (forall it :: it in generated ==> it.node in labels && Covered(labels[it.node], it.mark))
  }

  /** Both continuations of a label have been generated: the cut always, the merge if it passes the gate. */
  ghost predicate Expanded(app: Application, chain: seq<Id>, it: Item, generated: set<Item>) {
    && it.mark.partitioning != []
    && forall v :: Follows(chain, it.node, v) ==>
      && Item(v, CutLabel(app, it.mark, it.node, v)) in generated
      && (Gate(app, it.mark, v) ==> Item(v, MergeLabel(app, it.mark, v)) in generated)
  }

  ghost predicate Pending(app: Application, chain: seq<Id>, labels: Frontiers, pq: seq<Item>, generated: set<Item>) {
    forall id, l :: id in labels && l in labels[id]
      ==> Item(id, l) in pq || Expanded(app, chain, Item(id, l), generated)
  }

  lemma OfferTracks(labels: Frontiers, generated: set<Item>, v: Id, l: CspLabel)
    requires Tracks(labels, generated)
    ensures Tracks(labels[v := Offered(FrontierAt(labels, v), l)], generated + {Item(v, l)})
  {
    hide Antichain, Covered, Offered;
    var f := FrontierAt(labels, v);
    assert Antichain(f) by { if v !in labels { EmptyAntichain(); } }
    OfferedMeaning(f, l);
  }

  lemma EmptyAntichain()
    ensures Antichain([])
  { }

  lemma ExpandedGrows(app: Application, chain: seq<Id>, it: Item, generated: set<Item>, more: set<Item>)
    requires Expanded(app, chain, it, generated) && generated <= more
    ensures Expanded(app, chain, it, more)
  { }

  // ---- one proposal ----

  method Propose(labels: Frontiers, pq: seq<Item>, v: Id, l: CspLabel) returns (labels': Frontiers, pq': seq<Item>)
    ensures labels' == labels[v := Offered(FrontierAt(labels, v), l)]
    ensures pq' == if Covered(FrontierAt(labels, v), l) then pq else pq + [Item(v, l)]
  {
    var kept, added := Offer(FrontierAt(labels, v), l);
    labels' := labels[v := kept];
    pq' := if added then pq + [Item(v, l)] else pq;
  }

  lemma ProposalKeepsPending(app: Application, chain: seq<Id>, labels: Frontiers, pq: seq<Item>, generated: set<Item>,
      v: Id, l: CspLabel, skip: Item)
    requires Tracks(labels, generated)
    requires Pending(app, chain, labels, pq + [skip], generated)
    ensures var f := FrontierAt(labels, v);
      Pending(app, chain, labels[v := Offered(f, l)], (if Covered(f, l) then pq else pq + [Item(v, l)]) + [skip],
          generated + {Item(v, l)})
  {
    hide Antichain, Covered, Offered, Expanded, LastIndex;
    var f := FrontierAt(labels, v);
    var labels' := labels[v := Offered(f, l)];
    var pq' := (if Covered(f, l) then pq else pq + [Item(v, l)]) + [skip];
    assert Antichain(f) by { if v !in labels { EmptyAntichain(); } }
    OfferedMeaning(f, l);
    OfferedNew(f, l);
    forall id, x | id in labels' && x in labels'[id]
      ensures Item(id, x) in pq' || Expanded(app, chain, Item(id, x), generated + {Item(v, l)})
    {
      if id in labels && x in labels[id] {
        if Expanded(app, chain, Item(id, x), generated) {
          ExpandedGrows(app, chain, Item(id, x), generated, generated + {Item(v, l)});
        } else {
          assert Item(id, x) in pq + [skip];
        }
      } else {
        assert id == v && x == l;
        assert Item(v, l) in pq';
      }
    }
  }

  lemma OfferedNew(f: seq<CspLabel>, l: CspLabel)
    ensures Covered(f, l) ==> Offered(f, l) == f
  { }

  // ---- termination ----

  lemma LastIndexLater(chain: seq<Id>, i: nat)
    requires i < |chain|
    ensures i <= LastIndex(chain, chain[i]) < |chain|
  { }

  lemma BurdenFalls(chain: seq<Id>, u: Item, v: Item)
    requires LastIndex(chain, u.node) < |chain| && Follows(chain, u.node, v.node)
    ensures 3 * Burden(chain, v) <= Burden(chain, u)
    ensures Burden(chain, u) > 0
  {
    hide LastIndex;
    var i := LastIndex(chain, u.node);
    LastIndexLater(chain, i + 1);
    Pow3Monotone(|chain| - LastIndex(chain, v.node), |chain| - i - 1);
  }

  lemma {:induction false} Pow3Monotone(m: nat, n: nat)
    requires m <= n
    ensures 1 <= Pow3(m) <= Pow3(n)
    decreases n
  {
    if n > 0 { Pow3Monotone(if m < n then m else m - 1, n - 1); }
  }

  // ---- the loop ----

  ghost predicate LoopState(app: Application, chain: seq<Id>, labels: Frontiers, pq: seq<Item>, generated: set<Item>) {
    && Sound(app, chain, generated) && Tracks(labels, generated)
    && Pending(app, chain, labels, pq, generated)
    && (forall it :: it in pq ==> it in generated)
  }

  /** The state while `item` is off the queue but not yet expanded. */
  ghost predicate MidState(app: Application, chain: seq<Id>, labels: Frontiers, pq: seq<Item>, generated: set<Item>,
      item: Item) {
    && Sound(app, chain, generated) && Tracks(labels, generated)
    && Pending(app, chain, labels, pq + [item], generated)
    && (forall it :: it in pq ==> it in generated)
    && item in generated
  }

  /** One continuation of `item` is generated and offered: state kept, at most one push. */
  method Advance(app: Application, chain: seq<Id>, labels: Frontiers, pq: seq<Item>, item: Item, v: Id, l: CspLabel,
      ghost generated: set<Item>)
    returns (labels': Frontiers, pq': seq<Item>, ghost generated': set<Item>)
    requires MidState(app, chain, labels, pq, generated, item)
    requires LabelOK(app, chain, v, l)
    ensures MidState(app, chain, labels', pq', generated', item)
    ensures generated' == generated + {Item(v, l)}
    ensures Weight(chain, pq') <= Weight(chain, pq) + Burden(chain, Item(v, l))
  {
    hide Offered, Covered, Antichain, LabelOK, Burden, LastIndex, Pending, Tracks, Weight;
    OfferTracks(labels, generated, v, l);
    ProposalKeepsPending(app, chain, labels, pq, generated, v, l, item);
    WeightSnoc(chain, pq, Item(v, l));
    labels', pq' := Propose(labels, pq, v, l);
    generated' := generated + {Item(v, l)};
  }

  /** A pop is followed by at most two pushes one step further along the chain. */
  method Expand(app: Application, chain: seq<Id>, labels: Frontiers, pq: seq<Item>, item: Item, v: Id,
      ghost generated: set<Item>)
    returns (labels': Frontiers, pq': seq<Item>, ghost generated': set<Item>)
    requires MidState(app, chain, labels, pq, generated, item)
    requires Follows(chain, item.node, v) && LastIndex(chain, item.node) < |chain|
    ensures LoopState(app, chain, labels', pq', generated')
    ensures generated <= generated'
    ensures Weight(chain, pq') < Weight(chain, pq) + Burden(chain, item)
  {
    hide LabelOK, Burden, LastIndex, MergeLabel, CutLabel, Pending, Tracks, Weight, MergeProfitUSD;
    var u, l := item.node, item.mark;
    LabelHasGroups(app, chain, u, l);
    labels', pq', generated' := labels, pq, generated;
    var lastGroup := l.partitioning[|l.partitioning| - 1];
    var fits := Max(l.groupMemory, At(app.nodes, v).memoryMB) <= app.maxMemoryMB;
    var profitable := MergeIsProfitable(app.nodes, lastGroup, [v]);
    if fits && profitable {
      var merged := MergeLabel(app, l, v);
      MergeKeepsLabel(app, chain, u, l, v);
      BurdenFalls(chain, item, Item(v, merged));
      labels', pq', generated' := Advance(app, chain, labels', pq', item, v, merged, generated');
    }
    var cut := CutLabel(app, l, u, v);
    CutKeepsLabel(app, chain, u, l, v);
    BurdenFalls(chain, item, Item(v, cut));
    labels', pq', generated' := Advance(app, chain, labels', pq', item, v, cut, generated');
    DropExpanded(app, chain, labels', pq', item, generated');
  }

  lemma LabelHasGroups(app: Application, chain: seq<Id>, u: Id, l: CspLabel)
    requires LabelOK(app, chain, u, l)
    ensures l.partitioning != []
  { }

  lemma DropExpanded(app: Application, chain: seq<Id>, labels: Frontiers, pq: seq<Item>, item: Item,
      generated: set<Item>)
    requires Pending(app, chain, labels, pq + [item], generated)
    requires Expanded(app, chain, item, generated)
    ensures Pending(app, chain, labels, pq, generated)
  { }

  lemma EndIsExpanded(app: Application, chain: seq<Id>, item: Item, generated: set<Item>)
    requires LabelOK(app, chain, item.node, item.mark) && LastIndex(chain, item.node) + 1 >= |chain|
    ensures Expanded(app, chain, item, generated)
  { }

  lemma InitialState(app: Application, chain: seq<Id>)
    requires chain != []
    ensures var start := Item(chain[0], StartLabel(app, chain[0]));
      LoopState(app, chain, map[start.node := [start.mark]], [start], {start})
  {
    var start := Item(chain[0], StartLabel(app, chain[0]));
    StartIsLabel(app, chain);
    hide LabelOK;
    assert start.mark in [start.mark];
    assert start in [start];
  }

  method Search(app: Application, chain: seq<Id>) returns (labels: Frontiers, ghost generated: set<Item>)
    requires chain != []
    ensures LoopState(app, chain, labels, [], generated)
    ensures Item(chain[0], StartLabel(app, chain[0])) in generated
  {
    hide LabelOK, Burden, LastIndex, Weight, Expanded;
    var chainIdx := IndexOf(chain);
    var start := Item(chain[0], StartLabel(app, chain[0]));
    labels := map[start.node := [start.mark]];
    var pq := [start];
    generated := {start};
    StartIsLabel(app, chain);
    InitialState(app, chain);
    while pq != []
      invariant LoopState(app, chain, labels, pq, generated)
      invariant start in generated
      decreases Weight(chain, pq)
    {
      var item, rest, k := PopMin(pq);
      WeightRemove(chain, pq, k);
      assert forall it :: it in pq <==> it in rest + [item] by {
        assert pq == pq[..k] + [pq[k]] + pq[k + 1..];
      }
      assert Pending(app, chain, labels, rest + [item], generated);
      LabelNodeInChain(app, chain, item.node, item.mark);
      var uIndex := chainIdx[item.node];
      if uIndex + 1 >= |chain| {
        BurdenPositive(chain, item);
        EndIsExpanded(app, chain, item, generated);
        DropExpanded(app, chain, labels, rest, item, generated);
        pq := rest;
      } else {
        labels, pq, generated := Expand(app, chain, labels, rest, item, chain[uIndex + 1], generated);
      }
    }
  }

  lemma BurdenPositive(chain: seq<Id>, it: Item)
    ensures Burden(chain, it) > 0
  {
    Pow3Monotone(0, if LastIndex(chain, it.node) < |chain| then |chain| - LastIndex(chain, it.node) else 0);
  }

  lemma {:induction false} TrailInChain(chain: seq<Id>, t: seq<Id>)
    requires IsTrail(chain, t)
    ensures chain != [] && forall f :: f in t ==> f in chain
  {
    if |t| > 1 {
      TrailInChain(chain, t[..|t| - 1]);
      assert t == t[..|t| - 1] + [t[|t| - 1]];
    }
  }

  lemma LabelNodeInChain(app: Application, chain: seq<Id>, u: Id, l: CspLabel)
    requires LabelOK(app, chain, u, l)
    ensures u in chain && LastIndex(chain, u) < |chain|
  {
    TrailInChain(chain, Flat(l.partitioning));
    IndexOfMember(chain, u);
  }
}
