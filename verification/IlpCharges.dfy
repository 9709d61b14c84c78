/** What a partition pays, edge by edge: the objective's view of the bill. */
module IlpCharges {
  import opened Sums
  import opened Domain
  import opened Billing
  import opened Coarsening
  import opened TradeoffReport
  import opened IlpModel

  ghost function EdgeCost(s: Store): Edge -> real {
    (e: Edge) => EdgeCoef(s, e)
  }

  ghost function CutEdges(edges: seq<Edge>, p: seq<Group>): set<Edge> {
    set e | e in edges && IsCut(p, e.u, e.v)
  }

  /** A function nothing calls is always invoked by the platform; the program leaves that constant out. */
  ghost function EntryCharge(s: Store): Id -> real {
    (f: Id) => if At(s, f).parent.None? then RequestCharge(Rate(s, f)) else 0.0
  }

  ghost function InEdges(cut: set<Edge>, h: Edge -> real): (Id, Id) -> real {
    (u: Id, v: Id) => if Edge(u, v) in cut then h(Edge(u, v)) else 0.0
  }

  lemma SumOne<T(!new)>(s: set<T>, h: T -> real, x: T)
    requires x in s && forall y :: y in s && y != x ==> h(y) == 0.0
    ensures Sum(s, h) == h(x)
  {
    SumRemove(s, h, x);
    SumZero(s - {x}, h);
  }

  lemma Sum2Add(a: set<Id>, b: set<Id>, h: (Id, Id) -> real, k: (Id, Id) -> real, hk: (Id, Id) -> real)
    requires forall x, y :: x in a && y in b ==> hk(x, y) == h(x, y) + k(x, y)
    ensures Sum2(a, b, hk) == Sum2(a, b, h) + Sum2(a, b, k)
  {
    forall x | x in a ensures Row(b, hk)(x) == Row(b, h)(x) + Row(b, k)(x) {
      SumAdd(b, Fix(h, x), Fix(k, x), Fix(hk, x));
    }
    SumAdd(a, Row(b, h), Row(b, k), Row(b, hk));
  }

  lemma Sum2One(a: set<Id>, b: set<Id>, e: Edge, h: Edge -> real)
    requires e.u in a && e.v in b
    ensures Sum2(a, b, InEdges({e}, h)) == h(e)
  {
    var k := InEdges({e}, h);
    SumOne(b, Fix(k, e.u), e.v);
    forall x | x in a && x != e.u ensures Row(b, k)(x) == 0.0 { SumZero(b, Fix(k, x)); }
    SumOne(a, Row(b, k), e.u);
  }

  /** A sum over a set of edges is a double sum over their ends. */
  lemma {:induction false} SumOverEnds(a: set<Id>, cut: set<Edge>, h: Edge -> real)
    requires forall e :: e in cut ==> e.u in a && e.v in a
    ensures Sum(cut, h) == Sum2(a, a, InEdges(cut, h))
    decreases cut
  {
    hide Sum;
    if cut == {} {
      SumZero(cut, h);
      forall x | x in a ensures Row(a, InEdges(cut, h))(x) == 0.0 { SumZero(a, Fix(InEdges(cut, h), x)); }
      SumZero(a, Row(a, InEdges(cut, h)));
    } else {
      var e :| e in cut;
      SumRemove(cut, h, e);
      SumOverEnds(a, cut - {e}, h);
      Sum2One(a, a, e, h);
      Sum2Add(a, a, InEdges({e}, h), InEdges(cut - {e}, h), InEdges(cut, h));
    }
  }

  ghost function CutFlow(s: Store, cut: set<Edge>): (Id, Id) -> real {
    (u: Id, v: Id) => if Edge(u, v) in cut then DataTransferCostUSD(s, u, v) else 0.0
  }

  ghost function CutRequest(s: Store, cut: set<Edge>): (Id, Id) -> real {
    (u: Id, v: Id) => if Edge(u, v) in cut && At(s, v).parent == Some(u) then RequestCharge(Rate(s, v)) else 0.0
  }

  lemma EdgeEnds(app: Application, edges: seq<Edge>, e: Edge)
    requires WellFormed(app) && AreEdges(app, edges) && e in edges
    ensures e.u in app.functions && e.v in app.functions && e.v in At(app.nodes, e.u).children
  {
    assert WellFormedNode(app, e.u);
    assert e.v in Elems(At(app.nodes, e.u).children);
  }

  /** Cut edges carry exactly the transfer that crosses blocks. */
  lemma TransferIdentity(app: Application, edges: seq<Edge>, p: seq<Group>, u: Id)
    requires WellFormed(app) && AreEdges(app, edges) && IsPartition(app, p) && u in app.functions
    ensures Row(Elems(app.functions), CutFlow(app.nodes, CutEdges(edges, p)))(u) == CrossIn(app.nodes, p)(u)
  {
    var s, F := app.nodes, Elems(app.functions);
    var row, flow := Fix(CutFlow(s, CutEdges(edges, p)), u), Fix(Transfer(s), u);
    var outside := F - Block(p, u);
    OwnBlock(p, u);
    forall v | v in F
      ensures row(v) == if v in outside then flow(v) else 0.0
    {
      CutMeaning(p, u, v);
      if v in outside && v !in At(s, u).children { NoEdgeNoTransfer(app, u, v); }
    }
    SumRestrict(F, outside, row);
    SumCong(outside, row, flow);
  }

  /** Cut parent edges carry exactly the requests that are not unavoidable. */
  lemma RequestIdentity(app: Application, edges: seq<Edge>, p: seq<Group>, v: Id)
    requires WellFormed(app) && AreEdges(app, edges) && IsPartition(app, p) && v in app.functions
    ensures Row(Elems(app.functions), Flip(CutRequest(app.nodes, CutEdges(edges, p))))(v) + EntryCharge(app.nodes)(v)
            == RequestCharge(InvokedIn(app.nodes, p)(v))
  {
    var s, F := app.nodes, Elems(app.functions);
    var col := Fix(Flip(CutRequest(s, CutEdges(edges, p))), v);
    var parent := At(s, v).parent;
    assert WellFormedNode(app, v);
    OwnBlock(p, v);
    if parent.None? {
      SumZero(F, col);
    } else {
      var u := parent.value;
      CutMeaning(p, u, v);
      BlockIsTogether(p, u, v);
      BlockIsTogether(p, v, u);
      SumOne(F, col, u);
      assert col(u) == RequestCharge(EntryRateAt(s, Block(p, v), v));
    }
  }

  /** The cut edges' coefficients plus the execution of every member, plus the constant, is the bill. */
  lemma CutChargesAreBill(app: Application, edges: seq<Edge>, p: seq<Group>)
    requires WellFormed(app) && AreEdges(app, edges) && IsPartition(app, p)
    ensures Sum(CutEdges(edges, p), EdgeCost(app.nodes)) + Sum(Elems(app.functions), ExecutedIn(app.nodes, p))
            + Sum(Elems(app.functions), EntryCharge(app.nodes)) == TotalCostUSD(app, p)
  {
    hide Sum, SeqSum, Sum2, TotalCostUSD, RequestCharge, WellFormed, IsCut;
    var s, F, cut := app.nodes, Elems(app.functions), CutEdges(edges, p);
    forall e | e in cut ensures e.u in F && e.v in F { EdgeEnds(app, edges, e); }
    SumOverEnds(F, cut, EdgeCost(s));
    Sum2Add(F, F, CutFlow(s, cut), CutRequest(s, cut), InEdges(cut, EdgeCost(s)));
    TransferTotal(app, edges, p);
    RequestTotal(app, edges, p);
    CostByTerms(app, p);
    TotalsPerFunction(s, p);
  }

  lemma TransferTotal(app: Application, edges: seq<Edge>, p: seq<Group>)
    requires WellFormed(app) && AreEdges(app, edges) && IsPartition(app, p)
    ensures Sum2(Elems(app.functions), Elems(app.functions), CutFlow(app.nodes, CutEdges(edges, p)))
            == Sum(Elems(app.functions), CrossIn(app.nodes, p))
  {
    var s, F, cut := app.nodes, Elems(app.functions), CutEdges(edges, p);
    forall u | u in F ensures Row(F, CutFlow(s, cut))(u) == CrossIn(s, p)(u) { TransferIdentity(app, edges, p, u); }
    SumCong(F, Row(F, CutFlow(s, cut)), CrossIn(s, p));
  }

  lemma RequestTotal(app: Application, edges: seq<Edge>, p: seq<Group>)
    requires WellFormed(app) && AreEdges(app, edges) && IsPartition(app, p)
    ensures Sum2(Elems(app.functions), Elems(app.functions), CutRequest(app.nodes, CutEdges(edges, p)))
            + Sum(Elems(app.functions), EntryCharge(app.nodes))
            == RequestCharge(Sum(Elems(app.functions), InvokedIn(app.nodes, p)))
  {
    hide Sum, RequestCharge;
    var s, F, h := app.nodes, Elems(app.functions), CutRequest(app.nodes, CutEdges(edges, p));
    Sum2Swap(F, F, h);
    forall v | v in F
      ensures Charged(InvokedIn(s, p))(v) == Row(F, Flip(h))(v) + EntryCharge(s)(v)
    {
      RequestIdentity(app, edges, p, v);
    }
    SumAdd(F, Row(F, Flip(h)), EntryCharge(s), Charged(InvokedIn(s, p)));
    SumCharged(F, InvokedIn(s, p));
  }
}
