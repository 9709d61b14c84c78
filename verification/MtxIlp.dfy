/** The exact optimizer: build the program, ask a solver, read the partition back. */
module MtxIlp {
  import opened Domain
  import opened Coarsening
  import opened LinearExpr
  import opened IlpModel
  import opened LpText
  import opened LpProgram
  import opened IlpExact
  import opened IlpOptimal
  import opened Results

  /** How coefficients and right-hand sides are printed. */
  datatype Formats = Formats(numeral: real -> string, bound: Bounds)

  function SpellingOf(formats: Formats): Spelling {
    Spelling(formats.numeral, v => ColumnName(v))
  }

  /** Numerals are words that start with a digit; right-hand sides are words and no heading. */
  ghost predicate Printable(formats: Formats) {
    && (forall c :: c >= 0.0 ==> IsWord(formats.numeral(c)) && '0' <= formats.numeral(c)[0] <= '9')
    && forall row :: IsWord(formats.bound(row)) && formats.bound(row) != "Binary"
  }

  lemma PrintableIsPlain(formats: Formats)
    requires Printable(formats)
    ensures Plain(SpellingOf(formats), formats.bound) && NamesApart(SpellingOf(formats))
  {
    hide IsWord, ColumnName, STOPS;
    var sp := SpellingOf(formats);
    forall v ensures IsWord(sp.name(v)) && sp.name(v) !in STOPS { ColumnNamesArePlain(v); }
    forall v, w | sp.name(v) == sp.name(w) ensures v == w { ColumnNamesDistinct(v, w); }
  }

  /** A solver run on a text: the column values of a solution it proved optimal, or nothing. */
  type Solver = string -> Option<map<Column, real>>

  ghost predicate SamePlacement(a: Point, a': Point) {
    forall b, f :: a(X(b, f)) == a'(X(b, f))
  }

  /** Trusted of the foreign process, for the one program asked of it: it takes the printed numerals for
      the numbers they were printed for, and an answer to any text with the program's words reports the
      placement columns of an optimal solution of what that text says. Nothing is asked of the other
      columns, which need not be reported. */
  ghost predicate AnswersRight(solver: Solver, formats: Formats, p: Program, number: string -> real) {
    && NumeralsDenote(SpellingOf(formats), formats.bound, p, number)
    && forall text ::
      Words(text) == ProgramWords(SpellingOf(formats), formats.bound, p) && solver(text).Some? ==>
      IsOptimalAnswer(Read(Words(text)), number, solver(text).value)
  }

  ghost predicate IsOptimalAnswer(read: ReadProgram, number: string -> real, values: map<Column, real>) {
    exists column :: ReadLeast(read, number, column) && Reports(values, column)
  }

  ghost predicate Reports(values: map<Column, real>, column: string -> real) {
    forall b, f :: Reading(values)(X(b, f)) == column(ColumnName(X(b, f)))
  }

  ghost predicate IsExact(solver: Solver, formats: Formats, p: Program) {
    exists number :: AnswersRight(solver, formats, p, number)
  }

  /** An exact solver's answer to the text agrees on placement with a least-objective point. */
  lemma AnswerIsLeast(solver: Solver, formats: Formats, p: Program, text: string) returns (a: Point)
    requires Printable(formats) && IsExact(solver, formats, p)
    requires Words(text) == ProgramWords(SpellingOf(formats), formats.bound, p) && solver(text).Some?
    ensures LeastObjective(p, a) && SamePlacement(a, Reading(solver(text).value))
  {
    hide NumeralsDenote, Plain, NamesApart, ReadLeast, LeastObjective, Words, ProgramWords, Read, ColumnName;
    var sp := SpellingOf(formats);
    var number :| AnswersRight(solver, formats, p, number);
    var column :| ReadLeast(Read(Words(text)), number, column) && Reports(solver(text).value, column);
    PrintableIsPlain(formats);
    LeastReadIsLeast(sp, formats.bound, p, number, column);
    a := PointOf(sp, column);
  }

  lemma {:induction false} SameMembers(app: Application, a: Point, a': Point, b: nat, m: nat)
    requires SamePlacement(a, a') && m <= |app.functions|
    ensures RowMembers(app, a, b, m) == RowMembers(app, a', b, m)
  {
    if m > 0 { SameMembers(app, a, a', b, m - 1); }
  }

  /** Decoding looks at placement columns only. */
  lemma {:induction false} SameDecoding(app: Application, a: Point, a': Point, k: nat)
    requires SamePlacement(a, a') && k <= |app.functions|
    ensures Decoded(app, a, k) == Decoded(app, a', k)
  {
    if k > 0 {
      SameDecoding(app, a, a', k - 1);
      SameMembers(app, a, a', k - 1, |app.functions|);
    }
  }

  /** No feasible partition is cheaper; and when the critical path consists of calls and some
      partition is feasible, this one is. */
  ghost predicate NoFeasibleIsBetter(app: Application, groups: seq<Group>) {
    forall q :: IsPartition(app, q) && Feasible(app, q) ==>
      TotalCostUSD(app, groups) <= TotalCostUSD(app, q)
        && (PairsAreCalls(app.nodes, CriticalPath(app)) ==> Feasible(app, groups))
  }

  datatype Solution = Solution(optimal: bool, groups: seq<Group>)

  /** A program and the text of it that was handed to the solver. */
  datatype Request = Request(program: Program, text: string)

  /** The text spells out the program, and the program means what the mathematics says. */
  ghost predicate Asks(app: Application, formats: Formats, request: Request) {
    exists edges :: AreEdges(app, edges)
      && IsTextOf(app, edges, SpellingOf(formats), formats.bound, request.program, request.text)
  }

  ghost predicate ExactIfAsked(solver: Solver, formats: Formats, asked: Option<Request>) {
    asked.Some? ==> IsExact(solver, formats, asked.value.program)
  }

  /** Some function calls another. */
  ghost predicate HasCall(app: Application) {
    exists u, v :: u in app.functions && v in At(app.nodes, u).children && u != v
  }

  lemma EdgesAreCalls(app: Application, edges: seq<Edge>)
    requires AreEdges(app, edges)
    ensures edges != [] <==> HasCall(app)
  {
    if edges != [] { assert edges[0] in edges; }
    if HasCall(app) {
      var u, v :| u in app.functions && v in At(app.nodes, u).children && u != v;
      assert Edge(u, v) in edges;
    }
  }

  /** A program is asked exactly when some function calls another; otherwise every function stays alone.
      Once asked, there is a result exactly when the solver answers, and it is read off that answer. */
  method Solve(app: Application, formats: Formats, solver: Solver) returns (r: Solution, ghost asked: Option<Request>)
    requires Printable(formats)
    ensures asked.Some? <==> HasCall(app)
    ensures asked.Some? ==> Asks(app, formats, asked.value)
    ensures asked.None? ==> r == Solution(true, Singles(app.functions))
    ensures asked.Some? ==> (r.optimal <==> solver(asked.value.text).Some?)
    ensures asked.Some? && r.optimal ==> r.groups == Decode(app, Reading(solver(asked.value.text).value))
    ensures !r.optimal ==> r.groups == []
    ensures r.optimal && WellFormed(app) && ExactIfAsked(solver, formats, asked) ==>
      IsPartition(app, r.groups) && NoFeasibleIsBetter(app, r.groups)
  {
    hide IsTextOf, WellFormed, IsExact, Printable, Plain, AreEdges, IsPartition, NoFeasibleIsBetter, Decode, Reading,
      ColumnName, HasCall;
    asked := None;
    if app.functions == [] {
      NothingToSolve(app);
      assert Singles(app.functions) == [];
      r := Solution(true, []);
      return;
    }
    PrintableIsPlain(formats);
    var text, edges, p := BuildText(app, SpellingOf(formats), formats.bound);
    EdgesAreCalls(app, edges);
    if text.None? {
      r := Solution(true, Singles(app.functions));
      if WellFormed(app) { NoEdgesSolved(app, edges); }
      return;
    }
    asked := Some(Request(p.value, text.value));
    var answer := solver(text.value);
    if answer.None? {
      r := Solution(false, []);
      return;
    }
    var groups := DecodeGroups(app, answer.value);
    r := Solution(true, groups);
    if WellFormed(app) && ExactIfAsked(solver, formats, asked) {
      AnswerSolves(app, edges, formats, solver, p.value, text.value);
    }
  }

  lemma AnswerSolves(app: Application, edges: seq<Edge>, formats: Formats, solver: Solver, p: Program, text: string)
    requires WellFormed(app) && AreEdges(app, edges) && Printable(formats) && IsExact(solver, formats, p)
    requires IsTextOf(app, edges, SpellingOf(formats), formats.bound, p, text) && solver(text).Some?
    ensures IsPartition(app, Decode(app, Reading(solver(text).value)))
    ensures NoFeasibleIsBetter(app, Decode(app, Reading(solver(text).value)))
  {
    hide Words, ProgramWords, WellFormed, Satisfies, FeasiblePoint, Value, Objective, IsExact, Printable, AreEdges,
      IsPartition, NoFeasibleIsBetter, Reading, LeastObjective;
    var a := AnswerIsLeast(solver, formats, p, text);
    SameDecoding(app, a, Reading(solver(text).value), |app.functions|);
    AnswerIsCheapest(app, p, edges, a);
  }

  lemma NoEdgesSolved(app: Application, edges: seq<Edge>)
    requires WellFormed(app) && AreEdges(app, edges) && edges == []
    ensures IsPartition(app, Singles(app.functions)) && NoFeasibleIsBetter(app, Singles(app.functions))
  {
    hide IsPartition, Feasible, TotalCostUSD, PairsAreCalls;
    FunctionsDistinct(app);
    SinglesPartition(app);
    forall q | IsPartition(app, q) && Feasible(app, q)
      ensures TotalCostUSD(app, Singles(app.functions)) <= TotalCostUSD(app, q)
      ensures (PairsAreCalls(app.nodes, CriticalPath(app)) ==> Feasible(app, Singles(app.functions)))
    {
      NoEdgesSinglesOptimal(app, edges, q);
    }
  }

  lemma NothingToSolve(app: Application)
    requires app.functions == []
    ensures IsPartition(app, []) && NoFeasibleIsBetter(app, []) && !HasCall(app)
  {
    hide IsPartition, Feasible, TotalCostUSD;
    NoFunctions(app);
  }

  lemma NoFunctions(app: Application)
    requires app.functions == []
    ensures IsPartition(app, [])
    ensures forall q :: IsPartition(app, q) ==> TotalCostUSD(app, []) <= TotalCostUSD(app, q) && Feasible(app, [])
  {
    assert Members([]) == {};
    forall q | IsPartition(app, q) ensures TotalCostUSD(app, []) <= TotalCostUSD(app, q) && Feasible(app, []) {
      EmptyGroupsFree(app, q);
      HasMember(CriticalPath(app));
    }
  }

  lemma EmptyGroupsFree(app: Application, q: seq<Group>)
    requires app.functions == [] && IsPartition(app, q)
    ensures TotalCostUSD(app, q) == 0.0
  {
    forall g | g in q ensures BlockCharge(app.nodes)(g) == 0.0 {
      var i :| 0 <= i < |q| && q[i] == g;
      assert forall f :: f in q[i] ==> f in Members(q);
      HasMember(g);
    }
    SeqSumZero(q, BlockCharge(app.nodes));
  }

  lemma AnswerIsCheapest(app: Application, p: Program, edges: seq<Edge>, a: Point)
    requires WellFormed(app) && AreEdges(app, edges) && LeastObjective(p, a)
    requires forall a :: Satisfies(p, a) <==> FeasiblePoint(app, edges, a)
    requires forall a :: Value(p.objective, a) == Objective(app, edges, a)
    ensures IsPartition(app, Decode(app, a))
    ensures NoFeasibleIsBetter(app, Decode(app, a))
  {
    hide Satisfies, Objective, PlacementPoint, LatencyRow, Decode, TotalCostUSD, Feasible, Value, WellFormed, AreEdges;
    assert IsLeastPoint(app, edges, a) by {
      forall a' | FeasiblePoint(app, edges, a') ensures Objective(app, edges, a) <= Objective(app, edges, a') {
        assert Satisfies(p, a');
        assert Value(p.objective, a) <= Value(p.objective, a');
      }
    }
    DecodeIsPartition(app, edges, a);
    forall q | IsPartition(app, q) && Feasible(app, q)
      ensures TotalCostUSD(app, Decode(app, a)) <= TotalCostUSD(app, q)
      ensures (PairsAreCalls(app.nodes, CriticalPath(app)) ==> Feasible(app, Decode(app, a)))
    {
      LeastPointIsNotDearer(app, edges, a, q);
      if PairsAreCalls(app.nodes, CriticalPath(app)) { LeastPointIsCheapest(app, edges, a, q); }
    }
  }

  /** There is a solver, and it answered if it was asked. */
  ghost predicate Answered(app: Application, solver: Option<Solver>, asked: Option<Request>) {
    solver.Some? && (HasCall(app) ==> asked.Some? && solver.value(asked.value.text).Some?)
  }

  /** What was reported is what the solver's answer says, or every function alone where it was not asked. */
  ghost predicate IsAnswer(app: Application, solver: Solver, asked: Option<Request>, groups: seq<Group>) {
    if !HasCall(app) then groups == Singles(app.functions) else
    asked.Some? && solver(asked.value.text).Some? && groups == Decode(app, Reading(solver(asked.value.text).value))
  }

  /** The optimizer around the solver; `None` stands for a solver missing from the machine. */
  method Optimize(app: Application, formats: Formats, solver: Option<Solver>)
    returns (r: AlgorithmResult, ghost asked: Option<Request>)
    requires Printable(formats)
    ensures r.name == "MtxILP (Optimal)"
    ensures asked.Some? <==> solver.Some? && HasCall(app)
    ensures asked.Some? ==> Asks(app, formats, asked.value)
    ensures r.error == "" <==> Answered(app, solver, asked)
    ensures r.error == "" ==> r.metrics == MetricsOf(app, r.groups) && IsAnswer(app, solver.value, asked, r.groups)
    ensures r.error == "" && WellFormed(app) && ExactIfAsked(solver.value, formats, asked) ==>
      IsPartition(app, r.groups) && NoFeasibleIsBetter(app, r.groups)
    ensures r.error != "" ==> !r.metrics.feasible
  {
    hide Asks, ExactIfAsked, WellFormed, IsPartition, NoFeasibleIsBetter, MetricsOf, Printable, HasCall, Decode,
      Reading;
    asked := None;
    if solver.None? {
      r := Failed("MtxILP (Optimal)", Metrics(0.0, 0, false), "ILP solver not available");
      return;
    }
    var solution, request := Solve(app, formats, solver.value);
    asked := request;
    if !solution.optimal {
      r := Failed("MtxILP (Optimal)", Metrics(0.0, 0, false), "solver status");
      return;
    }
    r := Evaluated(app, "MtxILP (Optimal)", solution.groups);
  }
}
