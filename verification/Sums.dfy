/** Finite sums of reals, over sets (order-free) and over sequences (as loops accumulate them). */
module Sums {

  ghost function Sum<T(!new)>(s: set<T>, h: T -> real): real
  {
    if s == {} then 0.0 else
      var x :| x in s;
      h(x) + Sum(s - {x}, h)
  }

  ghost function SeqSum<T>(xs: seq<T>, h: T -> real): real
  {
    if xs == [] then 0.0 else SeqSum(xs[..|xs| - 1], h) + h(xs[|xs| - 1])
  }

  predicate Distinct<T(==)>(xs: seq<T>) {
    forall i, j :: 0 <= i < j < |xs| ==> xs[i] != xs[j]
  }

  ghost function Elems<T(!new)>(xs: seq<T>): set<T> {
    set x | x in xs
  }

  lemma Associates<T>(a: seq<T>, b: seq<T>, c: seq<T>)
    ensures a + b + c == a + (b + c)
  { }

  // ---- sums over sets ----

  lemma {:induction false} SumRemove<T(!new)>(s: set<T>, h: T -> real, x: T)
    requires x in s
    ensures Sum(s, h) == h(x) + Sum(s - {x}, h)
    decreases s
  {
    var y :| y in s && Sum(s, h) == h(y) + Sum(s - {y}, h);
    if y != x {
      SumRemove(s - {y}, h, x);
      assert s - {y} - {x} == s - {x} - {y};
      SumRemove(s - {x}, h, y);
    }
  }

  lemma SumInsert<T(!new)>(s: set<T>, h: T -> real, x: T)
    requires x !in s
    ensures Sum(s + {x}, h) == h(x) + Sum(s, h)
  {
    SumRemove(s + {x}, h, x);
    assert s + {x} - {x} == s;
  }

  lemma SumSingle<T(!new)>(x: T, h: T -> real)
    ensures Sum({x}, h) == h(x)
  {
    SumRemove({x}, h, x);
    assert {x} - {x} == {};
  }

  lemma {:induction false} SumUnion<T(!new)>(a: set<T>, b: set<T>, h: T -> real)
    requires a !! b
    ensures Sum(a + b, h) == Sum(a, h) + Sum(b, h)
    decreases b
  {
    if b == {} {
      assert a + b == a;
    } else {
      var x :| x in b;
      SumRemove(b, h, x);
      SumUnion(a, b - {x}, h);
      SumRemove(a + b, h, x);
      assert a + b - {x} == a + (b - {x});
    }
  }

  /** A sum is bounded by, equal to, or additive over its summands, pointwise. */
  lemma {:induction false} SumLe<T(!new)>(s: set<T>, h: T -> real, k: T -> real)
    requires forall x :: x in s ==> h(x) <= k(x)
    ensures Sum(s, h) <= Sum(s, k)
    decreases s
  {
    if s != {} {
      var x :| x in s;
      SumRemove(s, h, x);
      SumRemove(s, k, x);
      SumLe(s - {x}, h, k);
    }
  }

  lemma SumCong<T(!new)>(s: set<T>, h: T -> real, k: T -> real)
    requires forall x :: x in s ==> h(x) == k(x)
    ensures Sum(s, h) == Sum(s, k)
  {
    SumLe(s, h, k);
    SumLe(s, k, h);
  }

  lemma {:induction false} SumAdd<T(!new)>(s: set<T>, h: T -> real, k: T -> real, hk: T -> real)
    requires forall x :: x in s ==> hk(x) == h(x) + k(x)
    ensures Sum(s, hk) == Sum(s, h) + Sum(s, k)
    decreases s
  {
    if s != {} {
      var x :| x in s;
      SumRemove(s, h, x);
      SumRemove(s, k, x);
      SumRemove(s, hk, x);
      SumAdd(s - {x}, h, k, hk);
    }
  }

  lemma {:induction false} SumZero<T(!new)>(s: set<T>, h: T -> real)
    requires forall x :: x in s ==> h(x) == 0.0
    ensures Sum(s, h) == 0.0
    decreases s
  {
    if s != {} {
      var x :| x in s;
      SumRemove(s, h, x);
      SumZero(s - {x}, h);
    }
  }

  lemma SumNonNegative<T(!new)>(s: set<T>, h: T -> real)
    requires forall x :: x in s ==> h(x) >= 0.0
    ensures Sum(s, h) >= 0.0
  {
    var zero := (x: T) => 0.0;
    SumZero(s, zero);
    SumLe(s, zero, h);
  }

  /** Terms outside `a` that are zero can be dropped. */
  lemma SumRestrict<T(!new)>(s: set<T>, a: set<T>, h: T -> real)
    requires a <= s
    requires forall x :: x in s - a ==> h(x) == 0.0
    ensures Sum(s, h) == Sum(a, h)
  {
    assert s == a + (s - a);
    SumUnion(a, s - a, h);
    SumZero(s - a, h);
  }

  // ---- sums over sequences ----

  lemma SeqSumSnoc<T>(xs: seq<T>, x: T, h: T -> real)
    ensures SeqSum(xs + [x], h) == SeqSum(xs, h) + h(x)
  {
    assert (xs + [x])[..|xs|] == xs;
  }

  lemma SeqSumPrefix<T>(xs: seq<T>, i: nat, h: T -> real)
    requires i < |xs|
    ensures SeqSum(xs[..i + 1], h) == SeqSum(xs[..i], h) + h(xs[i])
  {
    assert xs[..i + 1][..i] == xs[..i];
  }

  lemma {:induction false} SeqSumCong<T>(xs: seq<T>, h: T -> real, k: T -> real)
    requires forall x :: x in xs ==> h(x) == k(x)
    ensures SeqSum(xs, h) == SeqSum(xs, k)
  {
    if xs != [] {
      SeqSumCong(xs[..|xs| - 1], h, k);
    }
  }

  lemma {:induction false} SeqSumAppend<T>(xs: seq<T>, ys: seq<T>, h: T -> real)
    ensures SeqSum(xs + ys, h) == SeqSum(xs, h) + SeqSum(ys, h)
    decreases |ys|
  {
    if ys == [] {
      assert xs + ys == xs;
    } else {
      var init, last := ys[..|ys| - 1], ys[|ys| - 1];
      SeqSumAppend(xs, init, h);
      SeqSumSnoc(xs + init, last, h);
      assert xs + ys == xs + init + [last];
    }
  }

  lemma {:induction false} SeqSumAdd<T>(xs: seq<T>, h: T -> real, k: T -> real, hk: T -> real)
    requires forall x :: x in xs ==> hk(x) == h(x) + k(x)
    ensures SeqSum(xs, hk) == SeqSum(xs, h) + SeqSum(xs, k)
  {
    if xs != [] {
      SeqSumAdd(xs[..|xs| - 1], h, k, hk);
    }
  }

  lemma {:induction false} SeqSumLe<T>(xs: seq<T>, h: T -> real, k: T -> real)
    requires forall x :: x in xs ==> h(x) <= k(x)
    ensures SeqSum(xs, h) <= SeqSum(xs, k)
  {
    if xs != [] {
      SeqSumLe(xs[..|xs| - 1], h, k);
    }
  }

  /** On a duplicate-free sequence, the order of accumulation does not matter. */
  lemma {:induction false} SeqSumIsSum<T(!new)>(xs: seq<T>, h: T -> real)
    requires Distinct(xs)
    ensures SeqSum(xs, h) == Sum(Elems(xs), h)
  {
    if xs == [] {
      assert Elems(xs) == {};
    } else {
      var init, last := xs[..|xs| - 1], xs[|xs| - 1];
      SeqSumIsSum(init, h);
      assert Elems(xs) == Elems(init) + {last};
      SumInsert(Elems(init), h, last);
    }
  }

  // ---- double sums ----

  ghost function Row<S(!new), T(!new)>(b: set<T>, h: (S, T) -> real): S -> real {
    (x: S) => Sum(b, Fix(h, x))
  }

  ghost function Fix<S(!new), T(!new)>(h: (S, T) -> real, x: S): T -> real {
    (y: T) => h(x, y)
  }

  ghost function Flip<S(!new), T(!new)>(h: (S, T) -> real): (T, S) -> real {
    (y: T, x: S) => h(x, y)
  }

  ghost function Sum2<S(!new), T(!new)>(a: set<S>, b: set<T>, h: (S, T) -> real): real {
    Sum(a, Row(b, h))
  }

  lemma Sum2SplitLeft<S(!new), T(!new)>(a1: set<S>, a2: set<S>, b: set<T>, h: (S, T) -> real)
    requires a1 !! a2
    ensures Sum2(a1 + a2, b, h) == Sum2(a1, b, h) + Sum2(a2, b, h)
  {
    SumUnion(a1, a2, Row(b, h));
  }

  lemma Sum2SplitRight<S(!new), T(!new)>(a: set<S>, b1: set<T>, b2: set<T>, h: (S, T) -> real)
    requires b1 !! b2
    ensures Sum2(a, b1 + b2, h) == Sum2(a, b1, h) + Sum2(a, b2, h)
  {
    forall x | x in a ensures Row(b1 + b2, h)(x) == Row(b1, h)(x) + Row(b2, h)(x) {
      SumUnion(b1, b2, Fix(h, x));
    }
    SumAdd(a, Row(b1, h), Row(b2, h), Row(b1 + b2, h));
  }

  lemma {:induction false} Sum2Swap<S(!new), T(!new)>(a: set<S>, b: set<T>, h: (S, T) -> real)
    ensures Sum2(a, b, h) == Sum2(b, a, Flip(h))
    decreases a
  {
    if a == {} {
      forall y | y in b ensures Row(a, Flip(h))(y) == 0.0 { }
      SumZero(b, Row(a, Flip(h)));
    } else {
      var x :| x in a;
      SumRemove(a, Row(b, h), x);
      Sum2Swap(a - {x}, b, h);
      forall y | y in b ensures Row(a, Flip(h))(y) == Fix(h, x)(y) + Row(a - {x}, Flip(h))(y) {
        SumRemove(a, Fix(Flip(h), y), x);
      }
      SumAdd(b, Fix(h, x), Row(a - {x}, Flip(h)), Row(a, Flip(h)));
    }
  }
}
