/** Families of groups and the sequences they flatten to. */
module Families {
  import opened Sums
  import opened Domain
  import opened Billing
  import opened Coarsening

  ghost function Flat(ps: seq<Group>): seq<Id> {
    if ps == [] then [] else Flat(ps[..|ps| - 1]) + ps[|ps| - 1]
  }

  lemma FlatSnoc(ps: seq<Group>, g: Group)
    ensures Flat(ps + [g]) == Flat(ps) + g
  {
    assert (ps + [g])[..|ps|] == ps;
  }

  lemma FlatOne(g: Group)
    ensures Flat([g]) == g
  {
    FlatSnoc([], g);
    assert [] + [g] == [g] && [] + g == g;
  }

  lemma FlatLast(ps: seq<Group>)
    requires ps != [] && ps[|ps| - 1] != []
    ensures Flat(ps) != [] && Flat(ps)[|Flat(ps)| - 1] == ps[|ps| - 1][|ps[|ps| - 1]| - 1]
  { }

  lemma {:induction false} FlatAppend(ps: seq<Group>, qs: seq<Group>)
    ensures Flat(ps + qs) == Flat(ps) + Flat(qs)
    decreases |qs|
  {
    if qs == [] {
      assert ps + qs == ps;
    } else {
      var init, last := qs[..|qs| - 1], qs[|qs| - 1];
      FlatAppend(ps, init);
      FlatSnoc(ps + init, last);
      assert ps + qs == ps + init + [last];
      Associates(Flat(ps), Flat(init), last);
    }
  }

  lemma {:induction false} FlatSingles(xs: seq<Id>)
    ensures Flat(Singles(xs)) == xs
  {
    if xs != [] {
      FlatSingles(xs[..|xs| - 1]);
      assert Singles(xs)[..|xs| - 1] == Singles(xs[..|xs| - 1]);
    } else {
      assert Singles(xs) == [];
    }
  }

  lemma {:induction false} FlatContains(ps: seq<Group>, g: Group, f: Id)
    requires g in ps && f in g
    ensures f in Flat(ps)
  {
    if g != ps[|ps| - 1] {
      FlatContains(ps[..|ps| - 1], g, f);
    }
  }

  lemma DistinctAppend(a: seq<Id>, b: seq<Id>)
    requires Distinct(a) && Distinct(b) && forall x :: x in a ==> x !in b
    ensures Distinct(a + b)
  {
    forall i, j | 0 <= i < j < |a + b| ensures (a + b)[i] != (a + b)[j] {
      if i < |a| <= j { assert a[i] in a && b[j - |a|] in b; }
    }
  }

  /** Groups whose concatenation repeats nothing are a family, and conversely. */
  lemma {:induction false} FlatFamily(ps: seq<Group>)
    requires Distinct(Flat(ps))
    ensures Family(ps) && Members(ps) == Elems(Flat(ps))
  {
    if ps == [] {
      assert Members(ps) == {};
    } else {
      var init, last := ps[..|ps| - 1], ps[|ps| - 1];
      var t, n := Flat(ps), |Flat(init)|;
      assert t == Flat(init) + last;
      assert Flat(init) == t[..n] && last == t[n..];
      FlatFamily(init);
      assert ps == init + [last];
      FamilySnoc(init, last);
    }
  }

  lemma {:induction false} FamilyFlat(ps: seq<Group>)
    requires Family(ps)
    ensures Distinct(Flat(ps)) && Members(ps) == Elems(Flat(ps))
  {
    if ps != [] {
      var init, last, n: nat := ps[..|ps| - 1], ps[|ps| - 1], |ps| - 1;
      assert Family(init);
      FamilyFlat(init);
      FlatFamily(init);
      FamilyGroupDistinct(ps, n);
      forall x | x in Flat(init) ensures x !in last {
        assert x in Members(init);
        var i :| 0 <= i < n && x in init[i];
        assert x in ps[i];
        FamilyOwner(ps, x, i);
        LastOwner(ps, x);
      }
      DistinctAppend(Flat(init), last);
    }
    FlatFamily(ps);
  }

  lemma LastOwner(ps: seq<Group>, x: Id)
    requires ps != []
    ensures x in ps[|ps| - 1] ==> Owner(ps, x) == Some(|ps| - 1)
  { }
}
