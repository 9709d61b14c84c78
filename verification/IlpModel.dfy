/** The mixed-integer program emitted for an application, row by row as the generator emits it. */
module IlpModel {
  import opened Sums
  import opened Domain
  import opened LinearExpr

  datatype Relation = Equal | AtMost | AtLeast

  datatype RowName = Assign(f: nat) | Root(b: nat, f: nat) | Mem(b: nat, f: nat) | Tier(b: nat, f: nat)
    | CutA(e: nat, b: nat) | CutB(e: nat, b: nat) | LatencyCap

  datatype Statement = Statement(name: RowName, terms: seq<Term>, relation: Relation, rhs: real)

  /** Minimise `objective` subject to `rows`; columns are non-negative, `binaries` are 0 or 1. */
  datatype Program = Program(objective: seq<Term>, rows: seq<Statement>, binaries: seq<Column>)

  datatype Edge = Edge(u: Id, v: Id)

  // ---- meaning of a program ----

  ghost predicate Compares(relation: Relation, lhs: real, rhs: real) {
    match relation
    case Equal => lhs == rhs
    case AtMost => lhs <= rhs
    case AtLeast => lhs >= rhs
  }

  ghost predicate Holds(row: Statement, a: Point) {
    Compares(row.relation, Value(row.terms, a), row.rhs)
  }

  ghost predicate AllHold(rows: seq<Statement>, a: Point) {
    forall i :: 0 <= i < |rows| ==> Holds(rows[i], a)
  }

  ghost predicate IsBinary(x: real) {
    x == 0.0 || x == 1.0
  }

  ghost predicate Satisfies(p: Program, a: Point) {
    && (forall c :: a(c) >= 0.0)
    && (forall c :: c in p.binaries ==> IsBinary(a(c)))
    && AllHold(p.rows, a)
  }

  ghost predicate LeastObjective(p: Program, a: Point) {
    Satisfies(p, a) && forall a' :: Satisfies(p, a') ==> Value(p.objective, a) <= Value(p.objective, a')
  }

  lemma AllHoldAppend(rows: seq<Statement>, more: seq<Statement>, a: Point)
    ensures AllHold(rows + more, a) <==> AllHold(rows, a) && AllHold(more, a)
  {
    if AllHold(rows + more, a) {
      forall i | 0 <= i < |rows| ensures Holds(rows[i], a) { assert (rows + more)[i] == rows[i]; }
      forall i | 0 <= i < |more| ensures Holds(more[i], a) { assert (rows + more)[|rows| + i] == more[i]; }
    }
  }

  // ---- the program as mathematics ----

  function GB(memoryMB: nat): real {
    memoryMB as real / 1024.0
  }

  function PerMillion(x: real): real {
    1000000.0 * x
  }

  /** USD per GB of `f`'s own duration. */
  function TierCoef(s: Store, f: Id): real {
    EXECUTION_PRICE_USD_PER_GB_SECOND * (At(s, f).runtimeMs as real / 1000.0)
  }

  /** What cutting an edge costs: its bytes, and a request if the callee's parent is the caller. */
  function EdgeCoef(s: Store, e: Edge): real {
    DataTransferCostUSD(s, e.u, e.v) + if At(s, e.v).parent == Some(e.u) then RequestCharge(Rate(s, e.v)) else 0.0
  }

  ghost function Below(n: nat): (s: set<nat>)
    ensures forall i: nat :: i in s <==> i < n
  {
    if n == 0 then {} else Below(n - 1) + {n - 1}
  }

  lemma SumBelowStep(n: nat, h: nat -> real)
    ensures Sum(Below(n + 1), h) == Sum(Below(n), h) + h(n)
  {
    assert Below(n + 1) == Below(n) + {n};
    SumInsert(Below(n), h, n);
  }

  ghost function InRow(a: Point, f: nat): nat -> real {
    (b: nat) => a(X(b, f))
  }

  ghost function CutTerm(s: Store, edges: seq<Edge>, a: Point): nat -> real {
    (i: nat) => if i < |edges| then Times(PerMillion(EdgeCoef(s, edges[i])), a(C(i))) else 0.0
  }

  ghost function TierTerm(app: Application, a: Point): (nat, nat) -> real {
    (b: nat, f: nat) =>
      if f < |app.functions| then Times(PerMillion(TierCoef(app.nodes, app.functions[f])), a(Y(b, f))) else 0.0
  }

  ghost function Objective(app: Application, edges: seq<Edge>, a: Point): real {
    var n := |app.functions|;
    Sum(Below(|edges|), CutTerm(app.nodes, edges, a)) + Sum2(Below(n), Below(n), TierTerm(app, a))
  }

  ghost predicate AssignRow(a: Point, n: nat, f: nat) {
    Sum(Below(n), InRow(a, f)) == 1.0
  }

  ghost predicate RootRow(a: Point, b: nat, f: nat) {
    a(X(b, f)) <= a(X(b, b))
  }

  ghost predicate MemRow(app: Application, a: Point, b: nat, f: nat)
    requires f < |app.functions|
  {
    a(M(b)) >= Times(GB(At(app.nodes, app.functions[f]).memoryMB), a(X(b, f)))
  }

  ghost predicate TierRow(a: Point, bigM: real, b: nat, f: nat) {
    a(Y(b, f)) - a(M(b)) - Times(bigM, a(X(b, f))) >= -bigM
  }

  ghost predicate CutRows(app: Application, a: Point, edges: seq<Edge>, i: nat, b: nat)
    requires i < |edges|
  {
    var u, v := LastIndex(app.functions, edges[i].u), LastIndex(app.functions, edges[i].v);
    && a(C(i)) >= a(X(b, u)) - a(X(b, v))
    && a(C(i)) >= a(X(b, v)) - a(X(b, u))
  }

  ghost predicate RowsAt(app: Application, a: Point, b: nat) {
    var n, bigM := |app.functions|, GB(GroupMemory(app.nodes, app.functions));
    && (forall f: nat :: f < n && f != b ==> RootRow(a, b, f))
    && (forall f: nat :: f < n ==> MemRow(app, a, b, f))
    && (forall f: nat :: f < n ==> TierRow(a, bigM, b, f))
  }

  /** A hop for every consecutive pair of the path that is an edge and is cut at `a`. */
  ghost function HopsAt(edges: seq<Edge>, path: seq<Id>, hop: int, a: Point): real {
    if |path| < 2 then 0.0 else
    HopsAt(edges, path[..|path| - 1], hop, a) + PairHop(edges, path[|path| - 2], path[|path| - 1], hop, a)
  }

  ghost function PairHop(edges: seq<Edge>, u: Id, v: Id, hop: int, a: Point): real {
    match EdgeIndex(edges, Edge(u, v))
    case None => 0.0
    case Some(i) => Times(hop as real, a(C(i)))
  }

  function EdgeIndex(edges: seq<Edge>, e: Edge): (o: Option<nat>)
    ensures o.Some? ==> o.value < |edges| && edges[o.value] == e
    ensures o.None? ==> e !in edges
  {
    if edges == [] then None
    else if edges[|edges| - 1] == e then Some(|edges| - 1)
    else EdgeIndex(edges[..|edges| - 1], e)
  }

  ghost predicate HasPathEdge(edges: seq<Edge>, path: seq<Id>) {
    exists i :: 0 <= i < |path| - 1 && Edge(path[i], path[i + 1]) in edges
  }

  /** The latency row exists only if a hop costs something and some pair of the path is an edge. */
  ghost predicate LatencyRow(app: Application, edges: seq<Edge>, a: Point) {
    var path := CriticalPath(app);
    app.networkHopMS != 0 && HasPathEdge(edges, path) ==>
      HopsAt(edges, path, app.networkHopMS, a) <= (app.maxLatencyMS - GroupRuntimeMs(app.nodes, path)) as real
  }

  /** Assignment, root, memory, tier and cut rows, with nothing left of how they were written. */
  ghost predicate PlacementPoint(app: Application, edges: seq<Edge>, a: Point) {
    var n := |app.functions|;
    && (forall c :: a(c) >= 0.0)
    && (forall b: nat, f: nat :: b < n && f < n ==> IsBinary(a(X(b, f))))
    && (forall i: nat :: i < |edges| ==> IsBinary(a(C(i))))
    && (forall f: nat :: f < n ==> AssignRow(a, n, f))
    && (forall b: nat :: b < n ==> RowsAt(app, a, b))
    && (forall i: nat, b: nat :: i < |edges| && b < n ==> CutRows(app, a, edges, i, b))
  }

  ghost predicate FeasiblePoint(app: Application, edges: seq<Edge>, a: Point) {
    PlacementPoint(app, edges, a) && LatencyRow(app, edges, a)
  }

  /** The edges of the program: calls between two different functions, each once. */
  ghost predicate AreEdges(app: Application, edges: seq<Edge>) {
    && Distinct(edges)
    && forall e :: e in edges <==> e.u in app.functions && e.v in At(app.nodes, e.u).children && e.u != e.v
  }
}
