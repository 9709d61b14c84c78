/** Label setting along the critical path: merge the next function or start a new group. */
module Csp {
  import opened Domain
  import opened Families

  datatype CspLabel = CspLabel(cost: real, latency: int, groupMemory: nat, partitioning: seq<Group>)

  datatype Item = Item(node: Id, mark: CspLabel)

  predicate Dominates(l: CspLabel, other: CspLabel) {
    l.cost <= other.cost && l.latency <= other.latency
  }

  // ---- frontiers ----

  ghost predicate Covered(frontier: seq<CspLabel>, l: CspLabel) {
    exists x :: x in frontier && Dominates(x, l)
  }

  ghost predicate Antichain(frontier: seq<CspLabel>) {
    forall i, j :: 0 <= i < |frontier| && 0 <= j < |frontier| && i != j ==> !Dominates(frontier[i], frontier[j])
  }

  ghost function Pruned(frontier: seq<CspLabel>, l: CspLabel): seq<CspLabel> {
    if frontier == [] then [] else
    var rest, last := Pruned(frontier[..|frontier| - 1], l), frontier[|frontier| - 1];
    if Dominates(l, last) then rest else rest + [last]
  }

  /** The frontier after a candidate is offered to it. */
  ghost function Offered(frontier: seq<CspLabel>, l: CspLabel): seq<CspLabel> {
    if Covered(frontier, l) then frontier else Pruned(frontier, l) + [l]
  }

  method IsDominated(frontier: seq<CspLabel>, candidate: CspLabel) returns (yes: bool)
    ensures yes <==> Covered(frontier, candidate)
  {
    for i := 0 to |frontier|
      invariant forall x :: x in frontier[..i] ==> !Dominates(x, candidate)
    {
      assert frontier[..i + 1] == frontier[..i] + [frontier[i]];
      if Dominates(frontier[i], candidate) {
        return true;
      }
    }
    assert frontier[..|frontier|] == frontier;
    return false;
  }

  /** Filters in place: survivors overwrite the front of the slice they are read from. */
  method PruneDominated(frontier: array<CspLabel>, n: nat, newLabel: CspLabel) returns (kept: nat)
    requires n <= frontier.Length
    modifies frontier
    ensures kept <= n
    ensures frontier[..kept] == Pruned(old(frontier[..n]), newLabel)
  {
    ghost var was := frontier[..n];
    kept := 0;
    for i := 0 to n
      invariant kept <= i
      invariant frontier[..kept] == Pruned(was[..i], newLabel)
      invariant forall k :: i <= k < n ==> frontier[k] == was[k]
    {
      assert was[..i + 1][..i] == was[..i];
      if !Dominates(newLabel, frontier[i]) {
        frontier[kept] := frontier[i];
        kept := kept + 1;
      }
    }
    assert was[..n] == was;
  }

  method Offer(frontier: seq<CspLabel>, candidate: CspLabel) returns (kept: seq<CspLabel>, added: bool)
    ensures kept == Offered(frontier, candidate)
    ensures added <==> !Covered(frontier, candidate)
  {
    var dominated := IsDominated(frontier, candidate);
    if dominated {
      return frontier, false;
    }
    var slice := new CspLabel[|frontier|](i requires 0 <= i < |frontier| => frontier[i]);
    assert slice[..slice.Length] == frontier;
    var n := PruneDominated(slice, slice.Length, candidate);
    kept, added := slice[..n] + [candidate], true;
  }

  lemma {:induction false} PrunedMembers(frontier: seq<CspLabel>, l: CspLabel)
    ensures forall x :: x in Pruned(frontier, l) <==> x in frontier && !Dominates(l, x)
  {
    if frontier != [] {
      PrunedMembers(frontier[..|frontier| - 1], l);
      assert frontier == frontier[..|frontier| - 1] + [frontier[|frontier| - 1]];
    }
  }

  lemma {:induction false} PrunedAntichain(frontier: seq<CspLabel>, l: CspLabel)
    requires Antichain(frontier)
    ensures Antichain(Pruned(frontier, l))
  {
    if frontier != [] {
      var n := |frontier| - 1;
      var init, last := frontier[..n], frontier[n];
      assert Antichain(init);
      PrunedAntichain(init, l);
      PrunedMembers(init, l);
      AntichainSnoc(Pruned(init, l), last) by {
        forall x | x in Pruned(init, l) ensures !Dominates(x, last) && !Dominates(last, x) {
          var i :| 0 <= i < n && frontier[i] == x;
        }
      }
    }
  }

  lemma AntichainSnoc(frontier: seq<CspLabel>, l: CspLabel)
    requires Antichain(frontier) && forall x :: x in frontier ==> !Dominates(x, l) && !Dominates(l, x)
    ensures Antichain(frontier + [l])
  { }

  /** Pruning loses nothing: still an antichain, and whatever was dominated by a kept label still is. */
  lemma OfferedMeaning(frontier: seq<CspLabel>, l: CspLabel)
    requires Antichain(frontier)
    ensures Antichain(Offered(frontier, l))
    ensures Covered(Offered(frontier, l), l)
    ensures forall x :: Covered(frontier, x) ==> Covered(Offered(frontier, l), x)
    ensures forall x :: x in Offered(frontier, l) ==> x in frontier || x == l
  {
    PrunedMembers(frontier, l);
    if !Covered(frontier, l) {
      PrunedAntichain(frontier, l);
      AntichainSnoc(Pruned(frontier, l), l);
      forall x | Covered(frontier, x) ensures Covered(Pruned(frontier, l) + [l], x) {
        var y :| y in frontier && Dominates(y, x);
        assert y in Pruned(frontier, l) || Dominates(l, y);
        assert l in Pruned(frontier, l) + [l];
      }
      assert l in Pruned(frontier, l) + [l];
    }
  }

  // ---- labels ----

  predicate Follows(chain: seq<Id>, u: Id, v: Id) {
    LastIndex(chain, u) + 1 < |chain| && v == chain[LastIndex(chain, u) + 1]
  }

  /** From the start of the chain, each step goes to what follows the last occurrence. */
  ghost predicate IsTrail(chain: seq<Id>, t: seq<Id>) {
    if |t| == 0 then false
    else if |t| == 1 then chain != [] && t[0] == chain[0]
    else IsTrail(chain, t[..|t| - 1]) && Follows(chain, t[|t| - 2], t[|t| - 1])
  }

  ghost function CutTransfer(s: Store, ps: seq<Group>): real {
    if |ps| < 2 then 0.0 else
    var u, v := ps[|ps| - 2], ps[|ps| - 1];
    CutTransfer(s, ps[..|ps| - 1]) + if u == [] || v == [] then 0.0 else DataTransferCostUSD(s, u[|u| - 1], v[0])
  }

  /** A group each of whose members paid its way in, one at a time. */
  ghost predicate Grown(s: Store, g: Group) {
    g != [] && forall j :: 1 <= j < |g| ==> MergeProfitUSD(s, g[..j], [g[j]]) > 0.0
  }

  ghost predicate FusedFits(app: Application, g: Group) {
    |g| >= 2 ==> GroupMemory(app.nodes, g) <= app.maxMemoryMB
  }

  /** What a label at `u` says: a contiguous segmentation of the path so far into groups that paid their
      way and, where anything was fused, fit; with its latency, the transfer on its cut pairs and the
      memory of its last group. */
  ghost predicate LabelOK(app: Application, chain: seq<Id>, u: Id, l: CspLabel) {
    var s, ps := app.nodes, l.partitioning;
    && ps != [] && (forall g :: g in ps ==> Grown(s, g) && FusedFits(app, g))
    && IsTrail(chain, Flat(ps)) && Flat(ps) != [] && Flat(ps)[|Flat(ps)| - 1] == u
    && l.latency == GroupRuntimeMs(s, Flat(ps)) + (|ps| - 1) * app.networkHopMS
    && l.cost == CutTransfer(s, ps)
    && l.groupMemory == GroupMemory(s, ps[|ps| - 1])
  }

  ghost predicate Gate(app: Application, l: CspLabel, v: Id)
    requires l.partitioning != []
  {
    && Max(l.groupMemory, At(app.nodes, v).memoryMB) <= app.maxMemoryMB
    && MergeProfitUSD(app.nodes, l.partitioning[|l.partitioning| - 1], [v]) > 0.0
  }

  function MergeLabel(app: Application, l: CspLabel, v: Id): CspLabel
    requires l.partitioning != []
  {
    var ps, last := l.partitioning, |l.partitioning| - 1;
    CspLabel(l.cost, l.latency + At(app.nodes, v).runtimeMs, Max(l.groupMemory, At(app.nodes, v).memoryMB),
             ps[last := ps[last] + [v]])
  }

  function CutLabel(app: Application, l: CspLabel, u: Id, v: Id): CspLabel {
    CspLabel(l.cost + DataTransferCostUSD(app.nodes, u, v), l.latency + At(app.nodes, v).runtimeMs + app.networkHopMS,
             At(app.nodes, v).memoryMB, l.partitioning + [[v]])
  }

  function StartLabel(app: Application, u: Id): CspLabel {
    CspLabel(0.0, At(app.nodes, u).runtimeMs, At(app.nodes, u).memoryMB, [[u]])
  }

  lemma FlatExtend(ps: seq<Group>, v: Id)
    requires ps != []
    ensures Flat(ps[|ps| - 1 := ps[|ps| - 1] + [v]]) == Flat(ps) + [v]
  {
    var qs := ps[|ps| - 1 := ps[|ps| - 1] + [v]];
    assert qs[..|ps| - 1] == ps[..|ps| - 1];
    assert Flat(qs) == Flat(ps[..|ps| - 1]) + (ps[|ps| - 1] + [v]);
  }

  lemma RuntimeSnoc(s: Store, t: seq<Id>, v: Id)
    ensures GroupRuntimeMs(s, t + [v]) == GroupRuntimeMs(s, t) + At(s, v).runtimeMs
  {
    assert (t + [v])[..|t|] == t;
  }

  lemma MemorySnoc(s: Store, g: Group, v: Id)
    ensures GroupMemory(s, g + [v]) == Max(GroupMemory(s, g), At(s, v).memoryMB)
  {
    assert (g + [v])[..|g|] == g;
  }

  lemma TrailSnoc(chain: seq<Id>, t: seq<Id>, v: Id)
    requires t != [] && IsTrail(chain, t) && Follows(chain, t[|t| - 1], v)
    ensures IsTrail(chain, t + [v])
  {
    assert (t + [v])[..|t|] == t;
  }

  lemma StartIsLabel(app: Application, chain: seq<Id>)
    requires chain != []
    ensures LabelOK(app, chain, chain[0], StartLabel(app, chain[0]))
  {
    var u := chain[0];
    FlatSnoc([], [u]);
    assert [] + [[u]] == [[u]];
    assert Flat([[u]]) == [u];
    RuntimeSnoc(app.nodes, [], u);
    MemorySnoc(app.nodes, [], u);
    assert [] + [u] == [u];
  }

  lemma CutTransferExtend(s: Store, ps: seq<Group>, v: Id)
    requires ps != [] && ps[|ps| - 1] != []
    ensures CutTransfer(s, ps[|ps| - 1 := ps[|ps| - 1] + [v]]) == CutTransfer(s, ps)
  {
    hide DataTransferCostUSD;
    var k := |ps| - 1;
    assert ps[k := ps[k] + [v]][..k] == ps[..k];
  }

  lemma CutTransferSnoc(s: Store, ps: seq<Group>, v: Id)
    requires ps != [] && ps[|ps| - 1] != []
    ensures CutTransfer(s, ps + [[v]])
            == CutTransfer(s, ps) + DataTransferCostUSD(s, ps[|ps| - 1][|ps[|ps| - 1]| - 1], v)
  {
    hide DataTransferCostUSD;
    assert (ps + [[v]])[..|ps|] == ps;
  }

  lemma GrownSnoc(s: Store, g: Group, v: Id)
    requires Grown(s, g) && MergeProfitUSD(s, g, [v]) > 0.0
    ensures Grown(s, g + [v])
  {
    hide MergeProfitUSD;
    var h := g + [v];
    forall j | 1 <= j < |h| ensures MergeProfitUSD(s, h[..j], [h[j]]) > 0.0 {
      assert h[..j] == g[..j];
      if j == |g| { assert g[..j] == g; }
    }
  }

  lemma MergeKeepsLabel(app: Application, chain: seq<Id>, u: Id, l: CspLabel, v: Id)
    requires LabelOK(app, chain, u, l) && Gate(app, l, v)
    requires Follows(chain, u, v)
    ensures LabelOK(app, chain, v, MergeLabel(app, l, v))
  {
    hide MergeProfitUSD, IsTrail, CutTransfer, Grown, GroupMemory, GroupRuntimeMs, Follows, Flat;
    var s, ps := app.nodes, l.partitioning;
    var k := |ps| - 1;
    var g := ps[k];
    assert Grown(s, g);
    GrownNonEmpty(s, g);
    FlatExtend(ps, v);
    TrailSnoc(chain, Flat(ps), v);
    RuntimeSnoc(s, Flat(ps), v);
    MemorySnoc(s, g, v);
    CutTransferExtend(s, ps, v);
    GrownSnoc(s, g, v);
    forall q | q in ps[k := g + [v]] ensures Grown(s, q) && FusedFits(app, q) {
      if q != g + [v] { assert q in ps; }
    }
  }

  lemma GrownNonEmpty(s: Store, g: Group)
    requires Grown(s, g)
    ensures g != []
  { }

  lemma GrownOne(s: Store, v: Id)
    ensures Grown(s, [v]) && GroupMemory(s, [v]) == At(s, v).memoryMB
  {
    MemorySnoc(s, [], v);
    assert [] + [v] == [v];
  }

  lemma CutKeepsLabel(app: Application, chain: seq<Id>, u: Id, l: CspLabel, v: Id)
    requires LabelOK(app, chain, u, l)
    requires Follows(chain, u, v)
    ensures LabelOK(app, chain, v, CutLabel(app, l, u, v))
  {
    hide MergeProfitUSD, IsTrail, CutTransfer, Grown, GroupMemory, GroupRuntimeMs, Follows, Flat, DataTransferCostUSD;
    var s, ps := app.nodes, l.partitioning;
    var g := ps[|ps| - 1];
    assert Grown(s, g);
    GrownNonEmpty(s, g);
    FlatLast(ps);
    FlatSnoc(ps, [v]);
    TrailSnoc(chain, Flat(ps), v);
    RuntimeSnoc(s, Flat(ps), v);
    GrownOne(s, v);
    CutTransferSnoc(s, ps, v);
    HopsStep(|ps|, app.networkHopMS);
  }

  lemma HopsStep(n: nat, hop: int)
    ensures (n - 1) * hop + hop == n * hop
  { }
}
