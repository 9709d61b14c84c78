/** The program is an exact encoding of the partition problem. */
module IlpExact {
  import opened Sums
  import opened Domain
  import opened Billing
  import opened Coarsening
  import opened LinearExpr
  import opened IlpModel
  import opened IlpCharges

  // ---- sums over indices ----

  lemma {:induction false} SumIndices<T(!new)>(xs: seq<T>, h: T -> real, k: nat -> real)
    requires forall i: nat :: i < |xs| ==> k(i) == h(xs[i])
    ensures Sum(Below(|xs|), k) == SeqSum(xs, h)
  {
    if xs == [] {
      SumZero(Below(0), k);
    } else {
      SumIndices(xs[..|xs| - 1], h, k);
      SumBelowStep(|xs| - 1, k);
    }
  }

  lemma SumBelowAtLeast(n: nat, h: nat -> real, x: nat)
    requires x < n && forall i: nat :: i < n ==> h(i) >= 0.0
    ensures Sum(Below(n), h) >= h(x)
  {
    SumRemove(Below(n), h, x);
    SumNonNegative(Below(n) - {x}, h);
  }

  /** Binary values that sum to one are one in exactly one place. */
  lemma {:induction false} OneHot(n: nat, h: nat -> real) returns (b: nat)
    requires forall i: nat :: i < n ==> IsBinary(h(i))
    requires Sum(Below(n), h) == 1.0
    ensures b < n && h(b) == 1.0 && forall i: nat :: i < n && i != b ==> h(i) == 0.0
  {
    hide Sum;
    SumZero(Below(0), h);
    SumBelowStep(n - 1, h);
    if h(n - 1) == 1.0 {
      b := n - 1;
      forall i: nat | i < n - 1 ensures h(i) == 0.0 { SumBelowAtLeast(n - 1, h, i); }
    } else {
      b := OneHot(n - 1, h);
    }
  }

  // ---- from a point to a partition ----

  ghost predicate IsRootOf(app: Application, a: Point, f: nat, b: nat) {
    && b < |app.functions|
    && a(X(b, f)) == 1.0
    && forall i: nat :: i < |app.functions| && i != b ==> a(X(i, f)) == 0.0
  }

  lemma RootExists(app: Application, edges: seq<Edge>, a: Point, f: nat) returns (b: nat)
    requires PlacementPoint(app, edges, a) && f < |app.functions|
    ensures IsRootOf(app, a, f, b) && IsRootOf(app, a, b, b)
  {
    var n := |app.functions|;
    assert AssignRow(a, n, f);
    b := OneHot(n, InRow(a, f));
    forall i: nat | i < n && i != b ensures a(X(i, f)) == 0.0 { assert InRow(a, f)(i) == 0.0; }
    if b != f {
      assert RowsAt(app, a, b);
      assert RootRow(a, b, f);
      var c := OneHot(n, InRow(a, b)) by { assert AssignRow(a, n, b); }
      assert a(X(b, b)) == 1.0;
      assert InRow(a, b)(b) == 1.0;
      forall i: nat | i < n && i != b ensures a(X(i, b)) == 0.0 { assert InRow(a, b)(i) == 0.0; }
    }
  }

  ghost function RootOf(app: Application, edges: seq<Edge>, a: Point, f: nat): (b: nat)
    requires PlacementPoint(app, edges, a) && f < |app.functions|
    ensures IsRootOf(app, a, f, b) && IsRootOf(app, a, b, b)
  {
    assert exists b :: IsRootOf(app, a, f, b) && IsRootOf(app, a, b, b) by {
      var b := RootExists(app, edges, a, f);
    }
    var b :| IsRootOf(app, a, f, b) && IsRootOf(app, a, b, b);
    b
  }

  ghost function RowMembers(app: Application, a: Point, b: nat, m: nat): Group
    requires m <= |app.functions|
  {
    if m == 0 then [] else
    var rest := RowMembers(app, a, b, m - 1);
    if a(X(b, m - 1)) > 0.5 then rest + [app.functions[m - 1]] else rest
  }

  /** The groups read back from a point: one per root, with every function assigned to it. */
  ghost function Decoded(app: Application, a: Point, k: nat): seq<Group>
    requires k <= |app.functions|
  {
    if k == 0 then [] else
    var rest := Decoded(app, a, k - 1);
    var row := RowMembers(app, a, k - 1, |app.functions|);
    if a(X(k - 1, k - 1)) < 0.5 || row == [] then rest else rest + [row]
  }

  ghost function Decode(app: Application, a: Point): seq<Group> {
    Decoded(app, a, |app.functions|)
  }

  ghost function Reading(values: map<Column, real>): Point {
    (c: Column) => if c in values then values[c] else 0.0
  }

  /** A reported value above one half places a function; a column not reported places nothing. */
  lemma {:induction false} RowHolds(app: Application, values: map<Column, real>, b: nat, m: nat, f: Id)
    requires m <= |app.functions|
    ensures f in RowMembers(app, Reading(values), b, m) <==>
      exists i: nat :: i < m && app.functions[i] == f && X(b, i) in values && values[X(b, i)] > 0.5
  {
    if m > 0 {
      RowHolds(app, values, b, m - 1, f);
      if app.functions[m - 1] == f && X(b, m - 1) in values && values[X(b, m - 1)] > 0.5 {
        assert f in RowMembers(app, Reading(values), b, m);
      }
    }
  }

  /** The groups read off an answer: for every root reported at one half or more, what is placed there. */
  lemma {:induction false} DecodedHolds(app: Application, values: map<Column, real>, k: nat, g: Group)
    requires k <= |app.functions|
    ensures g in Decoded(app, Reading(values), k) <==>
      exists b: nat :: b < k && X(b, b) in values && values[X(b, b)] >= 0.5
        && g == RowMembers(app, Reading(values), b, |app.functions|) != []
  {
    hide RowMembers;
    if k > 0 { DecodedHolds(app, values, k - 1, g); }
  }

  /** The decoding loop over the solver's column values. */
  method DecodeGroups(app: Application, values: map<Column, real>) returns (groups: seq<Group>)
    ensures groups == Decode(app, Reading(values))
  {
    ghost var a := Reading(values);
    groups := [];
    for b := 0 to |app.functions|
      invariant groups == Decoded(app, a, b)
    {
      var root := if X(b, b) in values then values[X(b, b)] else 0.0;
      if root < 0.5 {
        continue;
      }
      var group: Group := [];
      for f := 0 to |app.functions|
        invariant group == RowMembers(app, a, b, f)
      {
        var x := if X(b, f) in values then values[X(b, f)] else 0.0;
        if x > 0.5 {
          group := group + [app.functions[f]];
        }
      }
      if |group| > 0 {
        groups := groups + [group];
      }
    }
  }

  lemma {:induction false} RowMembersMeaning(app: Application, a: Point, b: nat, m: nat)
    requires Distinct(app.functions) && m <= |app.functions|
    ensures Distinct(RowMembers(app, a, b, m))
    ensures forall x :: x in RowMembers(app, a, b, m) <==>
      exists f: nat :: f < m && a(X(b, f)) > 0.5 && app.functions[f] == x
  {
    if m > 0 {
      RowMembersMeaning(app, a, b, m - 1);
      assert app.functions[m - 1] !in RowMembers(app, a, b, m - 1);
    }
  }

  lemma RowIsRootSet(app: Application, edges: seq<Edge>, a: Point, b: nat, f: nat)
    requires WellFormed(app) && PlacementPoint(app, edges, a) && b < |app.functions| && f < |app.functions|
    ensures app.functions[f] in RowMembers(app, a, b, |app.functions|) <==> RootOf(app, edges, a, f) == b
  {
    RowMembersMeaning(app, a, b, |app.functions|);
    assert IsRootOf(app, a, f, RootOf(app, edges, a, f));
  }

  ghost predicate HoldsRootsBelow(app: Application, edges: seq<Edge>, a: Point, k: nat, groups: seq<Group>)
    requires PlacementPoint(app, edges, a)
  {
    && Family(groups) && [] !in groups
    && Members(groups) <= Elems(app.functions)
    && (forall f: nat :: f < |app.functions| ==>
        (app.functions[f] in Members(groups) <==> RootOf(app, edges, a, f) < k))
    && (forall f: nat :: f < |app.functions| && RootOf(app, edges, a, f) < k ==>
        Block(groups, app.functions[f]) == Elems(RowMembers(app, a, RootOf(app, edges, a, f), |app.functions|)))
  }

  lemma DecodedStep(app: Application, edges: seq<Edge>, a: Point, k: nat, rest: seq<Group>, row: Group)
    requires WellFormed(app) && PlacementPoint(app, edges, a) && k < |app.functions|
    requires HoldsRootsBelow(app, edges, a, k, rest)
    requires row == RowMembers(app, a, k, |app.functions|)
    requires Distinct(row) && Elems(row) <= Elems(app.functions)
    requires forall f: nat :: f < |app.functions| ==> (app.functions[f] in row <==> RootOf(app, edges, a, f) == k)
    ensures HoldsRootsBelow(app, edges, a, k + 1, if row == [] then rest else rest + [row])
  {
    hide PlacementPoint, RowMembers, WellFormed, Family, Members, Block, RootOf, IsRootOf;
    if row != [] {
      forall x | x in row ensures x !in Members(rest) {
        assert x in Elems(row);
        assert x in app.functions;
        var f: nat :| f < |app.functions| && app.functions[f] == x;
      }
      FamilySnoc(rest, row);
    }
  }

  /** Decoding k roots yields disjoint non-empty groups holding exactly the functions whose root is below k. */
  lemma {:induction false} DecodedFamily(app: Application, edges: seq<Edge>, a: Point, k: nat)
    requires WellFormed(app) && PlacementPoint(app, edges, a) && k <= |app.functions|
    ensures HoldsRootsBelow(app, edges, a, k, Decoded(app, a, k))
  {
    hide PlacementPoint, RowMembers, RootOf, IsRootOf;
    if k > 0 {
      var n, row := |app.functions|, RowMembers(app, a, k - 1, |app.functions|);
      DecodedFamily(app, edges, a, k - 1);
      RowMembersMeaning(app, a, k - 1, n);
      forall f: nat | f < n ensures app.functions[f] in row <==> RootOf(app, edges, a, f) == k - 1 {
        RowIsRootSet(app, edges, a, k - 1, f);
      }
      DecodedRootCheck(app, edges, a, k - 1);
      DecodedStep(app, edges, a, k - 1, Decoded(app, a, k - 1), row);
    }
  }

  lemma DecodedRootCheck(app: Application, edges: seq<Edge>, a: Point, b: nat)
    requires WellFormed(app) && PlacementPoint(app, edges, a) && b < |app.functions|
    ensures RowMembers(app, a, b, |app.functions|) != [] ==> a(X(b, b)) == 1.0
  {
    var row := RowMembers(app, a, b, |app.functions|);
    if row != [] {
      RowMembersMeaning(app, a, b, |app.functions|);
      assert row[0] in row;
      var f: nat :| f < |app.functions| && a(X(b, f)) > 0.5 && app.functions[f] == row[0];
      RowIsRootSet(app, edges, a, b, f);
    }
  }

  /** Every point that satisfies the rows decodes to a partition, and two functions share a group
      exactly when they have the same root. */
  lemma DecodeIsPartition(app: Application, edges: seq<Edge>, a: Point)
    requires WellFormed(app) && PlacementPoint(app, edges, a)
    ensures IsPartition(app, Decode(app, a)) && [] !in Decode(app, a)
    ensures forall f: nat, g: nat :: f < |app.functions| && g < |app.functions| ==>
      (app.functions[g] in Block(Decode(app, a), app.functions[f]) <==>
        RootOf(app, edges, a, f) == RootOf(app, edges, a, g))
  {
    var n := |app.functions|;
    hide PlacementPoint, RowMembers, WellFormed, Family;
    DecodedFamily(app, edges, a, n);
    forall f: nat | f < n ensures RootOf(app, edges, a, f) < n {
      assert IsRootOf(app, a, f, RootOf(app, edges, a, f));
    }
    forall x | x in app.functions ensures x in Members(Decode(app, a)) {
      var f: nat :| f < n && app.functions[f] == x;
    }
    forall f: nat, g: nat | f < n && g < n
      ensures app.functions[g] in Block(Decode(app, a), app.functions[f]) <==>
        RootOf(app, edges, a, f) == RootOf(app, edges, a, g)
    {
      RowIsRootSet(app, edges, a, RootOf(app, edges, a, f), g);
    }
  }

  // ---- the objective of a point bounds the bill of what it decodes to ----

  lemma ExecutionByGB(s: Store, f: Id, memoryMB: nat)
    ensures Times(PerMillion(TierCoef(s, f)), GB(memoryMB))
            == PerMillion(ExecutionCostUSD(memoryMB, At(s, f).runtimeMs))
    ensures TierCoef(s, f) >= 0.0
  {
    var price, r, g := EXECUTION_PRICE_USD_PER_GB_SECOND, At(s, f).runtimeMs as real / 1000.0, GB(memoryMB);
    assert (1000000.0 * (price * r)) * g == 1000000.0 * (price * (g * r));
  }

  lemma TimesMonotone(c: real, x: real, y: real)
    requires c >= 0.0 && x <= y
    ensures Times(c, x) <= Times(c, y)
    ensures Times(c, 1.0) == c && Times(c, 0.0) == 0.0
  { }

  lemma GBMonotone(m1: nat, m2: nat)
    requires m1 <= m2
    ensures 0.0 <= GB(m1) <= GB(m2)
  { }

  /** A root's memory column is at least its heaviest member's; members are billed at least that. */
  lemma BilledAtLeastMax(app: Application, edges: seq<Edge>, a: Point, f: nat)
    requires WellFormed(app) && PlacementPoint(app, edges, a) && f < |app.functions|
    ensures a(Y(RootOf(app, edges, a, f), f)) >= GB(MaxMemory(app.nodes, Block(Decode(app, a), app.functions[f])))
  {
    var n, s, b := |app.functions|, app.nodes, RootOf(app, edges, a, f);
    var block := Block(Decode(app, a), app.functions[f]);
    DecodeIsPartition(app, edges, a);
    assert IsRootOf(app, a, f, b);
    assert RowsAt(app, a, b);
    assert TierRow(a, GB(GroupMemory(s, app.functions)), b, f);
    TimesMonotone(GB(GroupMemory(s, app.functions)), 0.0, 1.0);
    assert a(Y(b, f)) >= a(M(b));
    if MaxMemory(s, block) == 0 {
      assert a(M(b)) >= 0.0;
    } else {
      var x :| x in block && At(s, x).memoryMB == MaxMemory(s, block);
      MemberOfBlock(app, edges, a, f, x);
      var g: nat :| g < n && app.functions[g] == x;
      assert IsRootOf(app, a, g, RootOf(app, edges, a, g));
      assert MemRow(app, a, b, g);
      TimesMonotone(GB(At(s, x).memoryMB), 0.0, 1.0);
    }
  }

  lemma MemberOfBlock(app: Application, edges: seq<Edge>, a: Point, f: nat, x: Id)
    requires WellFormed(app) && PlacementPoint(app, edges, a) && f < |app.functions|
    requires x in Block(Decode(app, a), app.functions[f])
    ensures x in app.functions
  {
    DecodeIsPartition(app, edges, a);
    BlockIsTogether(Decode(app, a), app.functions[f], x);
    assert x in Members(Decode(app, a));
  }

  /** A cut edge has its binary at one. */
  lemma CutIsPaid(app: Application, edges: seq<Edge>, a: Point, i: nat)
    requires WellFormed(app) && AreEdges(app, edges) && PlacementPoint(app, edges, a) && i < |edges|
    ensures IsCut(Decode(app, a), edges[i].u, edges[i].v) ==> a(C(i)) == 1.0
  {
    var p := Decode(app, a);
    if IsCut(p, edges[i].u, edges[i].v) {
      EdgeEnds(app, edges, edges[i]);
      IndexOfMember(app.functions, edges[i].u);
      IndexOfMember(app.functions, edges[i].v);
      var u, v := LastIndex(app.functions, edges[i].u), LastIndex(app.functions, edges[i].v);
      DecodeIsPartition(app, edges, a);
      CutMeaning(p, edges[i].u, edges[i].v);
      var b := RootOf(app, edges, a, u);
      assert IsRootOf(app, a, u, b) && IsRootOf(app, a, v, RootOf(app, edges, a, v));
      assert CutRows(app, a, edges, i, b);
    }
  }

  ghost function CutCost(s: Store, p: seq<Group>): Edge -> real {
    (e: Edge) => if IsCut(p, e.u, e.v) then EdgeCoef(s, e) else 0.0
  }

  ghost function CutCostAt(s: Store, edges: seq<Edge>, p: seq<Group>): nat -> real {
    (i: nat) => if i < |edges| then PerMillion(CutCost(s, p)(edges[i])) else 0.0
  }

  ghost function Micros<T(!new)>(h: T -> real): T -> real {
    (x: T) => PerMillion(h(x))
  }

  lemma {:induction false} SumMicros<T(!new)>(s: set<T>, h: T -> real)
    ensures Sum(s, Micros(h)) == PerMillion(Sum(s, h))
    decreases s
  {
    if s != {} {
      var x :| x in s;
      SumRemove(s, h, x);
      SumRemove(s, Micros(h), x);
      SumMicros(s - {x}, h);
    }
  }

  lemma CutCostTotal(app: Application, edges: seq<Edge>, p: seq<Group>)
    requires AreEdges(app, edges)
    ensures Sum(Below(|edges|), CutCostAt(app.nodes, edges, p))
            == PerMillion(Sum(CutEdges(edges, p), EdgeCost(app.nodes)))
  {
    var s := app.nodes;
    SumIndices(edges, Micros(CutCost(s, p)), CutCostAt(s, edges, p));
    SeqSumIsSum(edges, Micros(CutCost(s, p)));
    SumMicros(Elems(edges), CutCost(s, p));
    SumRestrict(Elems(edges), CutEdges(edges, p), CutCost(s, p));
    SumCong(CutEdges(edges, p), CutCost(s, p), EdgeCost(s));
  }

  ghost function ExecutedAtIndex(app: Application, p: seq<Group>): nat -> real {
    (f: nat) => if f < |app.functions| then PerMillion(ExecutedIn(app.nodes, p)(app.functions[f])) else 0.0
  }

  lemma ExecutedTotal(app: Application, p: seq<Group>)
    requires Distinct(app.functions)
    ensures Sum(Below(|app.functions|), ExecutedAtIndex(app, p))
            == PerMillion(Sum(Elems(app.functions), ExecutedIn(app.nodes, p)))
  {
    var h := ExecutedIn(app.nodes, p);
    SumIndices(app.functions, Micros(h), ExecutedAtIndex(app, p));
    SeqSumIsSum(app.functions, Micros(h));
    SumMicros(Elems(app.functions), h);
  }

  /** USD per million: the bill of a partition less the request charges no partition avoids. */
  ghost function Target(app: Application, p: seq<Group>): real {
    PerMillion(TotalCostUSD(app, p) - Sum(Elems(app.functions), EntryCharge(app.nodes)))
  }

  lemma TargetByTerms(app: Application, edges: seq<Edge>, p: seq<Group>)
    requires WellFormed(app) && AreEdges(app, edges) && IsPartition(app, p)
    ensures Target(app, p)
            == Sum(Below(|edges|), CutCostAt(app.nodes, edges, p))
               + Sum(Below(|app.functions|), ExecutedAtIndex(app, p))
  {
    hide Sum, SeqSum, TotalCostUSD, CutEdges, Below;
    CutChargesAreBill(app, edges, p);
    CutCostTotal(app, edges, p);
    ExecutedTotal(app, p);
  }

  lemma EdgeCoefNonNegative(app: Application, edges: seq<Edge>, e: Edge)
    requires WellFormed(app) && AreEdges(app, edges) && e in edges
    ensures EdgeCoef(app.nodes, e) >= 0.0
  {
    EdgeEnds(app, edges, e);
    TransferNonNegative(app, e.u, e.v);
    RatePositive(app, e.v);
  }

  lemma CutTermAtLeast(app: Application, edges: seq<Edge>, a: Point, i: nat)
    requires WellFormed(app) && AreEdges(app, edges) && PlacementPoint(app, edges, a) && i < |edges|
    ensures CutTerm(app.nodes, edges, a)(i) >= CutCostAt(app.nodes, edges, Decode(app, a))(i)
  {
    hide Times, EdgeCoef, IsCut, Decode;
    var s, p, e := app.nodes, Decode(app, a), edges[i];
    var c := PerMillion(EdgeCoef(s, e));
    assert e in edges;
    EdgeCoefNonNegative(app, edges, e);
    CutIsPaid(app, edges, a, i);
    assert a(C(i)) >= 0.0;
    TimesMonotone(c, 0.0, a(C(i)));
    assert CutTerm(s, edges, a)(i) == Times(c, a(C(i)));
    assert CutCostAt(s, edges, p)(i) == PerMillion(CutCost(s, p)(e));
    assert CutCost(s, p)(e) == if IsCut(p, e.u, e.v) then EdgeCoef(s, e) else 0.0;
  }

  ghost function BilledIn(app: Application, a: Point, f: nat): nat -> real
    requires f < |app.functions|
  {
    (b: nat) => Times(PerMillion(TierCoef(app.nodes, app.functions[f])), a(Y(b, f)))
  }

  lemma BilledColumn(app: Application, a: Point, f: nat)
    requires f < |app.functions|
    ensures Row<nat, nat>(Below(|app.functions|), Flip<nat, nat>(TierTerm(app, a)))(f)
            == Sum(Below(|app.functions|), BilledIn(app, a, f))
  {
    hide Times, TierCoef;
    SumCong(Below(|app.functions|), Fix<nat, nat>(Flip<nat, nat>(TierTerm(app, a)), f), BilledIn(app, a, f));
  }

  lemma BilledAtLeastOne(app: Application, a: Point, f: nat, b: nat)
    requires f < |app.functions| && b < |app.functions| && forall c :: a(c) >= 0.0
    ensures Sum(Below(|app.functions|), BilledIn(app, a, f)) >= BilledIn(app, a, f)(b)
  {
    hide TierCoef, Sum;
    ExecutionByGB(app.nodes, app.functions[f], 0);
    var c := PerMillion(TierCoef(app.nodes, app.functions[f]));
    forall i: nat | i < |app.functions| ensures BilledIn(app, a, f)(i) >= 0.0 {
      assert a(Y(i, f)) >= 0.0;
      TimesMonotone(c, 0.0, a(Y(i, f)));
    }
    SumBelowAtLeast(|app.functions|, BilledIn(app, a, f), b);
  }

  lemma TierTermAtLeast(app: Application, edges: seq<Edge>, a: Point, f: nat)
    requires WellFormed(app) && PlacementPoint(app, edges, a) && f < |app.functions|
    ensures Row<nat, nat>(Below(|app.functions|), Flip<nat, nat>(TierTerm(app, a)))(f)
            >= ExecutedAtIndex(app, Decode(app, a))(f)
  {
    hide TierCoef, Sum, Times, ExecutionCostUSD, Row, Decode;
    var s, x, b := app.nodes, app.functions[f], RootOf(app, edges, a, f);
    var c, m := PerMillion(TierCoef(s, x)), MaxMemory(s, Block(Decode(app, a), x));
    BilledColumn(app, a, f);
    assert IsRootOf(app, a, f, b);
    BilledAtLeastOne(app, a, f, b);
    BilledAtLeastMax(app, edges, a, f);
    ExecutionByGB(s, x, m);
    TimesMonotone(c, GB(m), a(Y(b, f)));
    assert BilledIn(app, a, f)(b) == Times(c, a(Y(b, f)));
    assert ExecutedIn(s, Decode(app, a))(x) == ExecutedAt(s, Block(Decode(app, a), x), x);
  }

  /** Nothing is lost to the big-M linearisation: every point satisfying the rows has an objective
      of at least the bill of the partition it decodes to. */
  lemma ObjectiveBoundsBill(app: Application, edges: seq<Edge>, a: Point)
    requires WellFormed(app) && AreEdges(app, edges) && PlacementPoint(app, edges, a)
    ensures IsPartition(app, Decode(app, a))
    ensures Objective(app, edges, a) >= Target(app, Decode(app, a))
  {
    hide Sum, Target, PlacementPoint, WellFormed, Decode;
    var n, p := |app.functions|, Decode(app, a);
    DecodeIsPartition(app, edges, a);
    TargetByTerms(app, edges, p);
    forall i: nat | i in Below(|edges|) ensures CutCostAt(app.nodes, edges, p)(i) <= CutTerm(app.nodes, edges, a)(i) {
      CutTermAtLeast(app, edges, a, i);
    }
    SumLe(Below(|edges|), CutCostAt(app.nodes, edges, p), CutTerm(app.nodes, edges, a));
    Sum2Swap<nat, nat>(Below(n), Below(n), TierTerm(app, a));
    var rows := Row<nat, nat>(Below(n), Flip<nat, nat>(TierTerm(app, a)));
    forall f: nat | f in Below(n) ensures ExecutedAtIndex(app, p)(f) <= rows(f) {
      TierTermAtLeast(app, edges, a, f);
    }
    SumLe(Below(n), ExecutedAtIndex(app, p), rows);
  }
}
