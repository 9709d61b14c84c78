/** Linear expressions that accumulate duplicate variables, and their wrapping into lines. */
module LinearExpr {
  import opened Sums

  /** The columns of the model: group membership, cut edges, group memory, billed memory. */
  datatype Column = X(b: nat, f: nat) | C(e: nat) | M(b: nat) | Y(b: nat, f: nat)

  datatype Term = Term(coef: real, column: Column)

  type Point = Column -> real

  function Times(c: real, x: real): real {
    c * x
  }

  ghost function TermValue(a: Point): Term -> real {
    (t: Term) => Times(t.coef, a(t.column))
  }

  /** The value of a list of terms at a point. */
  ghost function Value(terms: seq<Term>, a: Point): real {
    SeqSum(terms, TermValue(a))
  }

  /** No column twice and no zero coefficient: what a CPLEX LP reader accepts. */
  ghost predicate Normal(terms: seq<Term>) {
    && (forall i, j :: 0 <= i < j < |terms| ==> terms[i].column != terms[j].column)
    && forall i :: 0 <= i < |terms| ==> terms[i].coef != 0.0
  }

  ghost function Weighted(byVar: map<Column, real>, a: Point): Column -> real {
    (c: Column) => if c in byVar then Times(byVar[c], a(c)) else 0.0
  }

  class Expr {
    var order: seq<Column>
    var byVar: map<Column, real>

    ghost predicate Valid()
      reads this
    {
      Distinct(order) && Elems(order) == byVar.Keys
    }

    ghost function At(a: Point): real
      reads this
    {
      SeqSum(order, Weighted(byVar, a))
    }

    constructor ()
      ensures Valid() && order == [] && forall a :: At(a) == 0.0
    {
      order, byVar := [], map[];
    }

    /** Adding to a seen column accumulates; the value grows by exactly the added term. */
    method Add(coef: real, column: Column)
      requires Valid()
      modifies this
      ensures Valid()
      ensures forall a :: At(a) == old(At(a)) + Times(coef, a(column))
    {
      hide SeqSum;
      if coef == 0.0 {
        return;
      }
      ghost var seen, before := order, byVar;
      if column in byVar {
        byVar := byVar[column := byVar[column] + coef];
        forall a ensures At(a) == SeqSum(seen, Weighted(before, a)) + Times(coef, a(column)) {
          AddSeen(seen, before, coef, column, a);
        }
      } else {
        order := order + [column];
        byVar := byVar[column := coef];
        forall a ensures At(a) == SeqSum(seen, Weighted(before, a)) + Times(coef, a(column)) {
          AddNew(seen, before, coef, column, a);
        }
      }
    }

    method Terms() returns (out: seq<Term>)
      requires Valid()
      ensures Normal(out)
      ensures forall a :: Value(out, a) == At(a)
    {
      hide Times;
      out := [];
      for i := 0 to |order|
        invariant Normal(out)
        invariant forall t :: t in out ==> t.column in order[..i]
        invariant forall a :: Value(out, a) == SeqSum(order[..i], Weighted(byVar, a))
      {
        var name := order[i];
        assert name in Elems(order);
        ghost var before := out;
        if byVar[name] != 0.0 {
          out := out + [Term(byVar[name], name)];
        }
        forall a ensures Value(out, a) == SeqSum(order[..i + 1], Weighted(byVar, a)) {
          TimesAdds(0.0, 0.0, a(name));
          SeqSumPrefix(order, i, Weighted(byVar, a));
          SeqSumSnoc(before, Term(byVar[name], name), TermValue(a));
        }
        assert order[..i + 1] == order[..i] + [name];
      }
      assert order[..|order|] == order;
    }
  }

  lemma TimesAdds(c: real, d: real, x: real)
    ensures Times(c + d, x) == Times(c, x) + Times(d, x)
    ensures Times(0.0, x) == 0.0
  { }

  lemma AddSeen(order: seq<Column>, byVar: map<Column, real>, coef: real, column: Column, a: Point)
    requires Distinct(order) && Elems(order) == byVar.Keys && column in byVar
    ensures SeqSum(order, Weighted(byVar[column := byVar[column] + coef], a))
            == SeqSum(order, Weighted(byVar, a)) + Times(coef, a(column))
  {
    hide Sum, SeqSum, Times;
    var w, w' := Weighted(byVar, a), Weighted(byVar[column := byVar[column] + coef], a);
    SeqSumIsSum(order, w);
    SeqSumIsSum(order, w');
    SumRemove(Elems(order), w, column);
    SumRemove(Elems(order), w', column);
    SumCong(Elems(order) - {column}, w, w');
    TimesAdds(byVar[column], coef, a(column));
  }

  lemma AddNew(order: seq<Column>, byVar: map<Column, real>, coef: real, column: Column, a: Point)
    requires Distinct(order) && Elems(order) == byVar.Keys && column !in byVar
    ensures SeqSum(order + [column], Weighted(byVar[column := coef], a))
            == SeqSum(order, Weighted(byVar, a)) + Times(coef, a(column))
  {
    hide Sum, SeqSum, Times;
    var w, w' := Weighted(byVar, a), Weighted(byVar[column := coef], a);
    assert column !in Elems(order);
    SeqSumSnoc(order, column, w');
    SeqSumCong(order, w, w');
  }

  /** Feeding any list of terms through an expression keeps its value at every point and leaves a
      normal list. */
  method Collect(raw: seq<Term>) returns (out: seq<Term>)
    ensures Normal(out)
    ensures forall a :: Value(out, a) == Value(raw, a)
  {
    hide Times;
    var e := new Expr();
    for i := 0 to |raw|
      invariant e.Valid()
      invariant forall a :: e.At(a) == Value(raw[..i], a)
    {
      forall a ensures Value(raw[..i + 1], a) == Value(raw[..i], a) + Times(raw[i].coef, a(raw[i].column)) {
        SeqSumPrefix(raw, i, TermValue(a));
      }
      e.Add(raw[i].coef, raw[i].column);
    }
    assert raw[..|raw|] == raw;
    out := e.Terms();
  }

  ghost function Only(c: Column): Point {
    (d: Column) => if d == c then 1.0 else 0.0
  }

  /** A normal expression is empty exactly when it is identically zero. */
  lemma EmptyIsZero(terms: seq<Term>)
    requires Normal(terms)
    ensures terms == [] <==> forall a :: Value(terms, a) == 0.0
  {
    if terms != [] {
      var n := |terms| - 1;
      var a := Only(terms[n].column);
      forall t | t in terms[..n] ensures TermValue(a)(t) == 0.0 {
        var i :| 0 <= i < n && terms[i] == t;
      }
      SeqSumZero(terms[..n], TermValue(a));
      assert Value(terms, a) == terms[n].coef;
    }
  }

  lemma {:induction false} SeqSumZero<T>(xs: seq<T>, h: T -> real)
    requires forall x :: x in xs ==> h(x) == 0.0
    ensures SeqSum(xs, h) == 0.0
  {
    if xs != [] {
      SeqSumZero(xs[..|xs| - 1], h);
    }
  }
}
