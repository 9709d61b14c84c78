/** The generator: loops that emit one family of rows after another. */
module IlpBuilder {
  import opened Sums
  import opened Domain
  import opened Evaluation
  import opened LinearExpr
  import opened IlpModel

  method CollectEdges(app: Application) returns (edges: seq<Edge>)
    ensures AreEdges(app, edges)
  {
    edges := [];
    for i := 0 to |app.functions|
      invariant Distinct(edges)
      invariant forall e :: e in edges <==>
        e.u in app.functions[..i] && e.v in At(app.nodes, e.u).children && e.u != e.v
    {
      var u := app.functions[i];
      var children := At(app.nodes, u).children;
      ghost var before := edges;
      for k := 0 to |children|
        invariant Distinct(edges)
        invariant forall e :: e in edges <==> e in before || (e.u == u && e.v in children[..k] && e.u != e.v)
      {
        var e := Edge(u, children[k]);
        if e.u != e.v && e !in edges {
          edges := edges + [e];
        }
        assert children[..k + 1] == children[..k] + [children[k]];
      }
      assert children[..|children|] == children;
      assert app.functions[..i + 1] == app.functions[..i] + [u];
    }
    assert app.functions[..|app.functions|] == app.functions;
  }

  method HeaviestGB(app: Application) returns (bigM: real)
    ensures bigM == GB(GroupMemory(app.nodes, app.functions))
  {
    bigM := 0.0;
    var fs := app.functions;
    for i := 0 to |fs|
      invariant bigM == GB(GroupMemory(app.nodes, fs[..i]))
    {
      assert fs[..i + 1][..i] == fs[..i];
      if GB(At(app.nodes, fs[i]).memoryMB) > bigM {
        bigM := GB(At(app.nodes, fs[i]).memoryMB);
      }
    }
    assert fs[..|fs|] == fs;
  }

  // ---- small statements ----

  lemma UnitTimes(x: real)
    ensures Times(1.0, x) == x && Times(-1.0, x) == -x
  { }

  lemma NegTimes(c: real, x: real)
    ensures Times(-c, x) == -Times(c, x)
  { }

  lemma ValueOfTwo(t: Term, u: Term, a: Point)
    ensures Value([t, u], a) == Times(t.coef, a(t.column)) + Times(u.coef, a(u.column))
  {
    hide Times;
    assert [t, u] == [t] + [u] && [t] == [] + [t];
    SeqSumSnoc([t], u, TermValue(a));
    SeqSumSnoc([], t, TermValue(a));
  }

  lemma ValueOfThree(t: Term, u: Term, v: Term, a: Point)
    ensures Value([t, u, v], a) == Times(t.coef, a(t.column)) + Times(u.coef, a(u.column)) + Times(v.coef, a(v.column))
  {
    hide Times;
    assert [t, u, v] == [t, u] + [v];
    SeqSumSnoc([t, u], v, TermValue(a));
    ValueOfTwo(t, u, a);
  }

  /** Terms go through an expression, so duplicates are merged before the row is written. */
  method State(name: RowName, raw: seq<Term>, relation: Relation, rhs: real) returns (row: Statement)
    ensures row.name == name && Normal(row.terms)
    ensures forall a :: Holds(row, a) <==> Compares(relation, Value(raw, a), rhs)
  {
    var terms := Collect(raw);
    row := Statement(name, terms, relation, rhs);
  }

  method StateAssign(n: nat, f: nat) returns (row: Statement)
    ensures forall a :: Holds(row, a) <==> AssignRow(a, n, f)
  {
    hide Sum;
    var raw: seq<Term> := [];
    assert forall a :: Sum<nat>(Below(0), InRow(a, f)) == 0.0 by {
      forall a: Point ensures Sum<nat>(Below(0), InRow(a, f)) == 0.0 { SumZero<nat>(Below(0), InRow(a, f)); }
    }
    for b := 0 to n
      invariant forall a :: Value(raw, a) == Sum(Below(b), InRow(a, f))
    {
      forall a: Point ensures Value(raw + [Term(1.0, X(b, f))], a) == Sum(Below(b + 1), InRow(a, f)) {
        SeqSumSnoc(raw, Term(1.0, X(b, f)), TermValue(a));
        UnitTimes(a(X(b, f)));
        SumBelowStep(b, InRow(a, f));
      }
      raw := raw + [Term(1.0, X(b, f))];
    }
    row := State(Assign(f), raw, Equal, 1.0);
  }

  method StateRoot(b: nat, f: nat) returns (row: Statement)
    ensures forall a :: Holds(row, a) <==> RootRow(a, b, f)
  {
    var t, u := Term(1.0, X(b, f)), Term(-1.0, X(b, b));
    row := State(Root(b, f), [t, u], AtMost, 0.0);
    forall a ensures Holds(row, a) <==> RootRow(a, b, f) {
      hide Times, SeqSum;
      ValueOfTwo(t, u, a);
      UnitTimes(a(X(b, f)));
      UnitTimes(a(X(b, b)));
    }
  }

  method StateMem(app: Application, b: nat, f: nat) returns (row: Statement)
    requires f < |app.functions|
    ensures forall a :: Holds(row, a) <==> MemRow(app, a, b, f)
  {
    var gb := GB(At(app.nodes, app.functions[f]).memoryMB);
    var t, u := Term(1.0, M(b)), Term(-gb, X(b, f));
    row := State(Mem(b, f), [t, u], AtLeast, 0.0);
    forall a ensures Holds(row, a) <==> MemRow(app, a, b, f) {
      hide Times, SeqSum;
      ValueOfTwo(t, u, a);
      UnitTimes(a(M(b)));
      NegTimes(gb, a(X(b, f)));
    }
  }

  method StateTier(bigM: real, b: nat, f: nat) returns (row: Statement)
    ensures forall a :: Holds(row, a) <==> TierRow(a, bigM, b, f)
  {
    var t, u, v := Term(1.0, Y(b, f)), Term(-1.0, M(b)), Term(-bigM, X(b, f));
    row := State(Tier(b, f), [t, u, v], AtLeast, -bigM);
    forall a ensures Holds(row, a) <==> TierRow(a, bigM, b, f) {
      hide Times, SeqSum;
      ValueOfThree(t, u, v, a);
      UnitTimes(a(Y(b, f)));
      UnitTimes(a(M(b)));
      NegTimes(bigM, a(X(b, f)));
    }
  }

  method StateCuts(i: nat, b: nat, u: nat, v: nat) returns (rows: seq<Statement>)
    ensures forall a :: AllHold(rows, a) <==> a(C(i)) >= a(X(b, u)) - a(X(b, v)) && a(C(i)) >= a(X(b, v)) - a(X(b, u))
  {
    var c := Term(1.0, C(i));
    var pu, mu, pv, mv := Term(1.0, X(b, u)), Term(-1.0, X(b, u)), Term(1.0, X(b, v)), Term(-1.0, X(b, v));
    var rowA := State(CutA(i, b), [c, mu, pv], AtLeast, 0.0);
    var rowB := State(CutB(i, b), [c, pu, mv], AtLeast, 0.0);
    rows := [rowA, rowB];
    forall a
      ensures AllHold(rows, a) <==> a(C(i)) >= a(X(b, u)) - a(X(b, v)) && a(C(i)) >= a(X(b, v)) - a(X(b, u))
    {
      hide Times, SeqSum;
      ValueOfThree(c, mu, pv, a);
      ValueOfThree(c, pu, mv, a);
      UnitTimes(a(C(i)));
      UnitTimes(a(X(b, u)));
      UnitTimes(a(X(b, v)));
      assert rows[0] == rowA && rows[1] == rowB;
    }
  }

  // ---- families ----

  method AssignFamily(n: nat) returns (rows: seq<Statement>)
    ensures forall a :: AllHold(rows, a) <==> forall f: nat :: f < n ==> AssignRow(a, n, f)
  {
    rows := [];
    for f := 0 to n
      invariant forall a :: AllHold(rows, a) <==> forall f': nat :: f' < f ==> AssignRow(a, n, f')
    {
      hide AssignRow, Holds;
      var row := StateAssign(n, f);
      AppendOne(rows, row);
      rows := rows + [row];
    }
  }

  lemma AppendOne(rows: seq<Statement>, row: Statement)
    ensures forall a :: AllHold(rows + [row], a) <==> AllHold(rows, a) && Holds(row, a)
  {
    forall a ensures AllHold(rows + [row], a) <==> AllHold(rows, a) && Holds(row, a) {
      AllHoldAppend(rows, [row], a);
      assert [row][0] == row;
    }
  }

  lemma AppendMany(rows: seq<Statement>, more: seq<Statement>)
    ensures forall a :: AllHold(rows + more, a) <==> AllHold(rows, a) && AllHold(more, a)
  {
    forall a ensures AllHold(rows + more, a) <==> AllHold(rows, a) && AllHold(more, a) {
      AllHoldAppend(rows, more, a);
    }
  }

  /** Root integrity for one root, skipping the degenerate row of the root itself. */
  method RootFamily(n: nat, b: nat) returns (rows: seq<Statement>)
    ensures forall a :: AllHold(rows, a) <==> forall f: nat :: f < n && f != b ==> RootRow(a, b, f)
  {
    rows := [];
    for f := 0 to n
      invariant forall a :: AllHold(rows, a) <==> forall f': nat :: f' < f && f' != b ==> RootRow(a, b, f')
    {
      hide RootRow, Holds;
      if b != f {
        var row := StateRoot(b, f);
        AppendOne(rows, row);
        rows := rows + [row];
      }
    }
  }

  method MemFamily(app: Application, b: nat) returns (rows: seq<Statement>)
    ensures forall a :: AllHold(rows, a) <==> forall f: nat :: f < |app.functions| ==> MemRow(app, a, b, f)
  {
    rows := [];
    for f := 0 to |app.functions|
      invariant forall a :: AllHold(rows, a) <==> forall f': nat :: f' < f ==> MemRow(app, a, b, f')
    {
      hide MemRow, Holds;
      var row := StateMem(app, b, f);
      AppendOne(rows, row);
      rows := rows + [row];
    }
  }

  method TierFamily(n: nat, bigM: real, b: nat) returns (rows: seq<Statement>)
    ensures forall a :: AllHold(rows, a) <==> forall f: nat :: f < n ==> TierRow(a, bigM, b, f)
  {
    rows := [];
    for f := 0 to n
      invariant forall a :: AllHold(rows, a) <==> forall f': nat :: f' < f ==> TierRow(a, bigM, b, f')
    {
      hide TierRow, Holds;
      var row := StateTier(bigM, b, f);
      AppendOne(rows, row);
      rows := rows + [row];
    }
  }

  method GroupFamilies(app: Application) returns (rows: seq<Statement>)
    ensures forall a :: AllHold(rows, a) <==> forall b: nat :: b < |app.functions| ==> RowsAt(app, a, b)
  {
    var n := |app.functions|;
    var bigM := HeaviestGB(app);
    var roots, mems, tiers := [], [], [];
    for b := 0 to n
      invariant forall a :: AllHold(roots + mems + tiers, a) <==> forall b': nat :: b' < b ==> RowsAt(app, a, b')
    {
      hide AllHold;
      var root := RootFamily(n, b);
      var mem := MemFamily(app, b);
      var tier := TierFamily(n, bigM, b);
      RowsAtRegroup(app, roots, mems, tiers, root, mem, tier, b);
      roots, mems, tiers := roots + root, mems + mem, tiers + tier;
    }
    rows := roots + mems + tiers;
  }

  lemma RowsAtRegroup(app: Application, roots: seq<Statement>, mems: seq<Statement>, tiers: seq<Statement>,
    root: seq<Statement>, mem: seq<Statement>, tier: seq<Statement>, b: nat)
    requires var n := |app.functions|;
      && (forall a :: AllHold(root, a) <==> forall f: nat :: f < n && f != b ==> RootRow(a, b, f))
      && (forall a :: AllHold(mem, a) <==> forall f: nat :: f < n ==> MemRow(app, a, b, f))
      && (forall a :: AllHold(tier, a) <==> forall f: nat :: f < n ==>
          TierRow(a, GB(GroupMemory(app.nodes, app.functions)), b, f))
    ensures forall a :: AllHold(roots + root + (mems + mem) + (tiers + tier), a) <==>
                        AllHold(roots + mems + tiers, a) && RowsAt(app, a, b)
  {
    hide AllHold, RootRow, MemRow, TierRow, GroupMemory;
    forall a ensures AllHold(roots + root + (mems + mem) + (tiers + tier), a)
      <==> AllHold(roots + mems + tiers, a) && RowsAt(app, a, b)
    {
      AllHoldAppend(roots + root + (mems + mem), tiers + tier, a);
      AllHoldAppend(roots + root, mems + mem, a);
      AllHoldAppend(roots, root, a);
      AllHoldAppend(mems, mem, a);
      AllHoldAppend(tiers, tier, a);
      AllHoldAppend(roots + mems, tiers, a);
      AllHoldAppend(roots, mems, a);
    }
  }

  method CutFamily(app: Application, edges: seq<Edge>, idx: map<Id, nat>, i: nat) returns (rows: seq<Statement>)
    requires i < |edges|
    requires forall f :: LastIndex(app.functions, f) == if f in idx then idx[f] else 0
    ensures forall a :: AllHold(rows, a) <==> forall b: nat :: b < |app.functions| ==> CutRows(app, a, edges, i, b)
  {
    rows := [];
    for b := 0 to |app.functions|
      invariant forall a :: AllHold(rows, a) <==> forall b': nat :: b' < b ==> CutRows(app, a, edges, i, b')
    {
      hide AllHold;
      var u := if edges[i].u in idx then idx[edges[i].u] else 0;
      var v := if edges[i].v in idx then idx[edges[i].v] else 0;
      var more := StateCuts(i, b, u, v);
      AppendMany(rows, more);
      forall a ensures AllHold(more, a) <==> CutRows(app, a, edges, i, b) { }
      rows := rows + more;
    }
  }

  method CutFamilies(app: Application, edges: seq<Edge>) returns (rows: seq<Statement>)
    ensures forall a :: AllHold(rows, a) <==>
      forall i: nat, b: nat :: i < |edges| && b < |app.functions| ==> CutRows(app, a, edges, i, b)
  {
    var idx := IndexOf(app.functions);
    rows := [];
    for i := 0 to |edges|
      invariant forall a :: AllHold(rows, a) <==>
        forall i': nat, b: nat :: i' < i && b < |app.functions| ==> CutRows(app, a, edges, i', b)
    {
      hide AllHold, CutRows;
      var more := CutFamily(app, edges, idx, i);
      AppendMany(rows, more);
      rows := rows + more;
    }
  }

  // ---- the latency row ----

  lemma PairValue(edges: seq<Edge>, u: Id, v: Id, hop: int, before: seq<Term>, a: Point)
    ensures var ei := EdgeIndex(edges, Edge(u, v));
      Value(if ei.Some? then before + [Term(hop as real, C(ei.value))] else before, a)
      == Value(before, a) + PairHop(edges, u, v, hop, a)
  {
    var ei := EdgeIndex(edges, Edge(u, v));
    if ei.Some? {
      SeqSumSnoc(before, Term(hop as real, C(ei.value)), TermValue(a));
    }
  }

  method LatencyTerms(edges: seq<Edge>, path: seq<Id>, hop: int) returns (raw: seq<Term>)
    ensures forall a :: Value(raw, a) == HopsAt(edges, path, hop, a)
  {
    raw := [];
    var i := 0;
    while i < |path| - 1
      invariant 0 <= i <= |path| && (|path| > 0 ==> i <= |path| - 1)
      invariant |path| == 0 ==> raw == []
      invariant |path| > 0 ==> forall a :: Value(raw, a) == HopsAt(edges, path[..i + 1], hop, a)
    {
      assert path[..i + 2][..i + 1] == path[..i + 1];
      var ei := EdgeIndex(edges, Edge(path[i], path[i + 1]));
      ghost var before := raw;
      if ei.Some? {
        raw := raw + [Term(hop as real, C(ei.value))];
      }
      forall a: Point ensures Value(raw, a) == HopsAt(edges, path[..i + 2], hop, a) {
        PairValue(edges, path[i], path[i + 1], hop, before, a);
      }
      i := i + 1;
    }
    assert |path| > 0 ==> path[..i + 1] == path;
  }

  ghost function One(): Point {
    (c: Column) => 1.0
  }

  function CallsOnPath(edges: seq<Edge>, path: seq<Id>): nat {
    if |path| < 2 then 0 else
    CallsOnPath(edges, path[..|path| - 1])
    + if EdgeIndex(edges, Edge(path[|path| - 2], path[|path| - 1])).Some? then 1 else 0
  }

  lemma {:induction false} HopsAtOne(edges: seq<Edge>, path: seq<Id>, hop: int)
    ensures HopsAt(edges, path, hop, One()) == (hop * CallsOnPath(edges, path)) as real
  {
    if |path| >= 2 {
      HopsAtOne(edges, path[..|path| - 1], hop);
      assert Times(hop as real, 1.0) == hop as real;
    }
  }

  lemma {:induction false} NoHops(edges: seq<Edge>, path: seq<Id>, hop: int, a: Point)
    requires hop == 0 || CallsOnPath(edges, path) == 0
    ensures HopsAt(edges, path, hop, a) == 0.0
  {
    if |path| >= 2 {
      NoHops(edges, path[..|path| - 1], hop, a);
      if hop == 0 { assert forall x :: Times(0.0, x) == 0.0; }
    }
  }

  lemma {:induction false} CallsOnPathMeaning(edges: seq<Edge>, path: seq<Id>)
    ensures CallsOnPath(edges, path) > 0 <==> HasPathEdge(edges, path)
  {
    if |path| >= 2 {
      var init, k := path[..|path| - 1], |path| - 2;
      CallsOnPathMeaning(edges, init);
      assert HasPathEdge(edges, init) ==> HasPathEdge(edges, path) by {
        if HasPathEdge(edges, init) {
          var i :| 0 <= i < |init| - 1 && Edge(init[i], init[i + 1]) in edges;
          assert Edge(path[i], path[i + 1]) in edges;
        }
      }
      if HasPathEdge(edges, path) {
        var i :| 0 <= i < |path| - 1 && Edge(path[i], path[i + 1]) in edges;
        if i < k { assert Edge(init[i], init[i + 1]) in edges; }
      }
    }
  }

  /** The expression is non-empty exactly when hops cost something and the path uses an edge. */
  lemma LatencyRowEmitted(edges: seq<Edge>, path: seq<Id>, hop: int, terms: seq<Term>)
    requires Normal(terms) && forall a :: Value(terms, a) == HopsAt(edges, path, hop, a)
    ensures terms != [] <==> hop != 0 && HasPathEdge(edges, path)
  {
    EmptyIsZero(terms);
    CallsOnPathMeaning(edges, path);
    HopsAtOne(edges, path, hop);
    if hop != 0 && CallsOnPath(edges, path) > 0 {
      assert hop * CallsOnPath(edges, path) != 0;
      assert Value(terms, One()) != 0.0;
    } else {
      forall a ensures Value(terms, a) == 0.0 { NoHops(edges, path, hop, a); }
    }
  }

  method LatencyRows(app: Application, edges: seq<Edge>) returns (rows: seq<Statement>)
    ensures forall a :: AllHold(rows, a) <==> LatencyRow(app, edges, a)
  {
    var path := CriticalPathFunctions(app);
    var runtime := RuntimeMs(app.nodes, path);
    var raw := LatencyTerms(edges, path, app.networkHopMS);
    var terms := Collect(raw);
    LatencyRowEmitted(edges, path, app.networkHopMS, terms);
    rows := [];
    if terms != [] {
      rows := [Statement(LatencyCap, terms, AtMost, (app.maxLatencyMS - runtime) as real)];
      forall a ensures AllHold(rows, a) <==> Value(terms, a) <= (app.maxLatencyMS - runtime) as real {
        assert rows[0].terms == terms;
      }
    }
  }

  // ---- the objective ----

  method CutObjective(app: Application, edges: seq<Edge>) returns (raw: seq<Term>)
    ensures forall a :: Value(raw, a) == Sum(Below(|edges|), CutTerm(app.nodes, edges, a))
  {
    hide Sum, Times;
    raw := [];
    forall a: Point
      ensures Sum<nat>(Below(0), CutTerm(app.nodes, edges, a)) == 0.0
    {
      SumZero<nat>(Below(0), CutTerm(app.nodes, edges, a));
    }
    for i := 0 to |edges|
      invariant forall a :: Value(raw, a) == Sum(Below(i), CutTerm(app.nodes, edges, a))
    {
      var t := Term(PerMillion(EdgeCoef(app.nodes, edges[i])), C(i));
      forall a: Point ensures Value(raw + [t], a) == Sum(Below(i + 1), CutTerm(app.nodes, edges, a)) {
        SeqSumSnoc(raw, t, TermValue(a));
        SumBelowStep(i, CutTerm(app.nodes, edges, a));
      }
      raw := raw + [t];
    }
  }

  method TierObjective(app: Application, b: nat) returns (raw: seq<Term>)
    ensures forall a :: Value(raw, a) == Sum(Below(|app.functions|), Fix<nat, nat>(TierTerm(app, a), b))
  {
    hide Sum, Times;
    raw := [];
    forall a: Point
      ensures Sum<nat>(Below(0), Fix<nat, nat>(TierTerm(app, a), b)) == 0.0
    {
      SumZero<nat>(Below(0), Fix<nat, nat>(TierTerm(app, a), b));
    }
    for f := 0 to |app.functions|
      invariant forall a :: Value(raw, a) == Sum(Below(f), Fix<nat, nat>(TierTerm(app, a), b))
    {
      var t := Term(PerMillion(TierCoef(app.nodes, app.functions[f])), Y(b, f));
      forall a: Point ensures Value(raw + [t], a) == Sum(Below(f + 1), Fix<nat, nat>(TierTerm(app, a), b)) {
        SeqSumSnoc(raw, t, TermValue(a));
        SumBelowStep(f, Fix<nat, nat>(TierTerm(app, a), b));
      }
      raw := raw + [t];
    }
  }

  method ObjectiveTerms(app: Application, edges: seq<Edge>) returns (terms: seq<Term>)
    ensures forall a :: Value(terms, a) == Objective(app, edges, a)
  {
    hide Sum, Times;
    var n := |app.functions|;
    var cuts := CutObjective(app, edges);
    var raw := cuts;
    forall a: Point
      ensures Sum<nat>(Below(0), Row<nat, nat>(Below(n), TierTerm(app, a))) == 0.0
    {
      SumZero<nat>(Below(0), Row<nat, nat>(Below(n), TierTerm(app, a)));
    }
    for b := 0 to n
      invariant forall a ::
        Value(raw, a) == Sum(Below(|edges|), CutTerm(app.nodes, edges, a))
          + Sum(Below(b), Row<nat, nat>(Below(n), TierTerm(app, a)))
    {
      var more := TierObjective(app, b);
      forall a: Point ensures Value(raw + more, a) ==
        Sum(Below(|edges|), CutTerm(app.nodes, edges, a)) + Sum(Below(b + 1), Row<nat, nat>(Below(n), TierTerm(app, a)))
      {
        SeqSumAppend(raw, more, TermValue(a));
        SumBelowStep(b, Row<nat, nat>(Below(n), TierTerm(app, a)));
      }
      raw := raw + more;
    }
    terms := Collect(raw);
    terms := OrZero(terms);
  }

  /** A name with no terms is not well formed, so a zero term stands in. */
  method OrZero(terms: seq<Term>) returns (r: seq<Term>)
    ensures r != [] && forall a :: Value(r, a) == Value(terms, a)
  {
    if terms != [] {
      return terms;
    }
    var zero := Term(0.0, C(0));
    r := [zero];
    forall a ensures Value(r, a) == Value(terms, a) {
      assert r == [] + [zero];
      SeqSumSnoc([], zero, TermValue(a));
      TimesAdds(0.0, 0.0, a(C(0)));
    }
  }

  // ---- the whole program ----

  method BinarySection(n: nat, m: nat) returns (columns: seq<Column>)
    ensures forall c :: c in columns <==> (c.X? && c.b < n && c.f < n) || (c.C? && c.e < m)
  {
    columns := [];
    for b := 0 to n
      invariant forall c :: c in columns <==> c.X? && c.b < b && c.f < n
    {
      for f := 0 to n
        invariant forall c :: c in columns <==> c.X? && ((c.b < b && c.f < n) || (c.b == b && c.f < f))
      {
        columns := columns + [X(b, f)];
      }
    }
    for i := 0 to m
      invariant forall c :: c in columns <==> (c.X? && c.b < n && c.f < n) || (c.C? && c.e < i)
    {
      columns := columns + [C(i)];
    }
  }

  /** The emitted program means exactly what `FeasiblePoint` and `Objective` say, at every point.
      With no edges there is nothing to optimise and no program. */
  method BuildLP(app: Application) returns (p: Option<Program>, edges: seq<Edge>)
    ensures AreEdges(app, edges)
    ensures p.None? <==> edges == []
    ensures p.Some? ==> forall a :: Satisfies(p.value, a) <==> FeasiblePoint(app, edges, a)
    ensures p.Some? ==> forall a :: Value(p.value.objective, a) == Objective(app, edges, a)
  {
    edges := CollectEdges(app);
    if edges == [] {
      return None, edges;
    }
    var n := |app.functions|;
    var objective := ObjectiveTerms(app, edges);
    var assigns := AssignFamily(n);
    var groups := GroupFamilies(app);
    var cuts := CutFamilies(app, edges);
    var latency := LatencyRows(app, edges);
    var binaries := BinarySection(n, |edges|);
    p := Some(Program(objective, assigns + groups + cuts + latency, binaries));
    forall a ensures Satisfies(p.value, a) <==> FeasiblePoint(app, edges, a) {
      hide AllHold, AssignRow, RowsAt, CutRows, LatencyRow;
      AllHoldAppend(assigns + groups + cuts, latency, a);
      AllHoldAppend(assigns + groups, cuts, a);
      AllHoldAppend(assigns, groups, a);
      BinariesMeaning(binaries, n, |edges|, a);
    }
  }

  lemma BinariesMeaning(binaries: seq<Column>, n: nat, m: nat, a: Point)
    requires forall c :: c in binaries <==> (c.X? && c.b < n && c.f < n) || (c.C? && c.e < m)
    ensures (forall c :: c in binaries ==> IsBinary(a(c))) <==>
      (forall b: nat, f: nat :: b < n && f < n ==> IsBinary(a(X(b, f))))
        && (forall i: nat :: i < m ==> IsBinary(a(C(i))))
  {
    if forall c :: c in binaries ==> IsBinary(a(c)) {
      forall b: nat, f: nat | b < n && f < n ensures IsBinary(a(X(b, f))) { assert X(b, f) in binaries; }
      forall i: nat | i < m ensures IsBinary(a(C(i))) { assert C(i) in binaries; }
    }
  }
}
