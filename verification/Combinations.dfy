/** All k-element subsequences, generated by recursion over slices that share their backing array. */
module Combinations {
  import opened Sums

  type Choice = seq<nat>

  /** Extensions of `prefix` to k items, each taken from position start on: take it, or skip it. */
  ghost function Combos<T>(xs: seq<T>, k: nat, start: nat, prefix: seq<T>): seq<seq<T>>
    requires |prefix| <= k
    decreases |xs| - start
  {
    if |prefix| == k then [prefix]
    else if start >= |xs| then []
    else Combos(xs, k, start + 1, prefix + [xs[start]]) + Combos(xs, k, start + 1, prefix)
  }

  /** Appending to the first `n` slots of a backing array: in place while there is room, which is seen
      by everyone who holds the array, and into a larger copy when there is none. */
  method Append<T>(backing: array<T>, n: nat, x: T) returns (grown: array<T>)
    requires n <= backing.Length
    modifies backing
    ensures n < grown.Length && grown[..n + 1] == old(backing[..n]) + [x]
    ensures backing[..n] == old(backing[..n])
    ensures if n < backing.Length then grown == backing else fresh(grown)
  {
    if n < backing.Length {
      backing[n] := x;
      return backing;
    }
    var capacity :| n < capacity;
    grown := new T[capacity](_ => x);
    for i := 0 to n
      invariant forall k :: 0 <= k < i ==> grown[k] == backing[k]
      invariant grown[n] == x && backing[..] == old(backing[..])
    {
      grown[i] := backing[i];
    }
  }

  /** The recursive helper with the slice every branch appends to. */
  class Search<T> {
    const items: seq<T>
    const k: nat
    var result: seq<seq<T>>

    constructor (items: seq<T>, k: nat)
      ensures this.items == items && this.k == k && result == []
    {
      this.items, this.k, this.result := items, k, [];
    }

    /** Siblings share a backing array while it has room and overwrite the slot at `depth`, but never
        the prefix below it; what is returned is a copy. */
    method Helper(start: nat, current: array<T>, depth: nat)
      requires depth <= k && depth <= current.Length
      modifies this`result, current
      ensures current[..depth] == old(current[..depth])
      ensures result == old(result) + Combos(items, k, start, old(current[..depth]))
      decreases |items| - start
    {
      ghost var prefix := current[..depth];
      if depth == k {
        result := result + [current[..depth]];
        return;
      }
      var i := start;
      while i < |items|
        invariant start <= i && (i <= |items| || i == start)
        invariant current[..depth] == prefix
        invariant result + Combos(items, k, i, prefix) == old(result) + Combos(items, k, start, prefix)
      {
        var next := Append(current, depth, items[i]);
        ghost var before := result;
        Helper(i + 1, next, depth + 1);
        if next == current { assert current[..depth] == current[..depth + 1][..depth]; }
        Associates(before, Combos(items, k, i + 1, prefix + [items[i]]), Combos(items, k, i + 1, prefix));
        i := i + 1;
      }
    }
  }

  method Combinations<T>(items: seq<T>, k: nat) returns (result: seq<seq<T>>)
    ensures result == Combos(items, k, 0, [])
  {
    if k == 0 {
      return [[]];
    }
    if k > |items| {
      TooMany(items, k, 0, []);
      return [];
    }
    var search := new Search(items, k);
    var none := new T[0](_ => items[0]);
    assert none[..0] == [];
    search.Helper(0, none, 0);
    result := search.result;
  }

  lemma {:induction false} TooMany<T>(xs: seq<T>, k: nat, start: nat, prefix: seq<T>)
    requires |prefix| <= k && start <= |xs| && |xs| - start < k - |prefix|
    ensures Combos(xs, k, start, prefix) == []
    decreases |xs| - start
  {
    if start < |xs| {
      TooMany(xs, k, start + 1, prefix + [xs[start]]);
      TooMany(xs, k, start + 1, prefix);
    }
  }

  // ---- positions ----

  /** The same enumeration on positions. */
  ghost function Choices(n: nat, k: nat, start: nat, prefix: Choice): seq<Choice>
    requires |prefix| <= k
    decreases n - start
  {
    if |prefix| == k then [prefix]
    else if start >= n then []
    else Choices(n, k, start + 1, prefix + [start]) + Choices(n, k, start + 1, prefix)
  }

  ghost predicate InRange(n: nat, c: Choice) {
    forall i :: 0 <= i < |c| ==> c[i] < n
  }

  ghost function Pick<T>(xs: seq<T>, c: Choice): seq<T>
    requires InRange(|xs|, c)
  {
    seq(|c|, i requires 0 <= i < |c| => xs[c[i]])
  }

  /** The j-th combination is the items at the j-th choice of positions. */
  lemma {:induction false} CombosArePicks<T>(xs: seq<T>, k: nat, start: nat, prefix: Choice)
    requires |prefix| <= k && InRange(|xs|, prefix)
    ensures |Combos(xs, k, start, Pick(xs, prefix))| == |Choices(|xs|, k, start, prefix)|
    ensures forall j :: 0 <= j < |Choices(|xs|, k, start, prefix)| ==>
      InRange(|xs|, Choices(|xs|, k, start, prefix)[j])
      && Combos(xs, k, start, Pick(xs, prefix))[j] == Pick(xs, Choices(|xs|, k, start, prefix)[j])
    decreases |xs| - start
  {
    if |prefix| < k && start < |xs| {
      assert Pick(xs, prefix + [start]) == Pick(xs, prefix) + [xs[start]];
      CombosArePicks(xs, k, start + 1, prefix + [start]);
      CombosArePicks(xs, k, start + 1, prefix);
    }
  }

  // ---- exactly the increasing subsequences, each once, in lexicographic order ----

  ghost predicate Increasing(c: Choice) {
    forall i, j :: 0 <= i < j < |c| ==> c[i] < c[j]
  }

  ghost predicate LexLess(c: Choice, d: Choice) {
    exists i :: 0 <= i < |c| && i < |d| && c[..i] == d[..i] && c[i] < d[i]
  }

  /** `c` continues `prefix` with indices from start on. */
  ghost predicate Continues(c: Choice, prefix: Choice, start: nat) {
    && |prefix| <= |c| && c[..|prefix|] == prefix
    && forall i :: |prefix| <= i < |c| ==> c[i] >= start
  }

  ghost predicate Below(prefix: Choice, start: nat) {
    forall i :: 0 <= i < |prefix| ==> prefix[i] < start
  }

  lemma {:induction false} ChoicesSound(n: nat, k: nat, start: nat, prefix: Choice)
    requires |prefix| <= k && Increasing(prefix) && Below(prefix, start)
    ensures forall c :: c in Choices(n, k, start, prefix) ==> |c| == k && Increasing(c) && Continues(c, prefix, start)
    decreases n - start
  {
    if |prefix| < k && start < n {
      ChoicesSound(n, k, start + 1, prefix + [start]);
      ChoicesSound(n, k, start + 1, prefix);
      forall c | c in Choices(n, k, start + 1, prefix + [start]) ensures Continues(c, prefix, start) {
        assert c[..|prefix| + 1] == prefix + [start];
        assert c[..|prefix|] == c[..|prefix| + 1][..|prefix|];
        assert c[|prefix|] == c[..|prefix| + 1][|prefix|];
      }
    }
  }

  lemma TakesOrSkips(n: nat, start: nat, prefix: Choice, c: Choice)
    requires |prefix| < |c| && Increasing(c) && InRange(n, c) && Continues(c, prefix, start)
    ensures start < n
    ensures if c[|prefix|] == start then Continues(c, prefix + [start], start + 1) else Continues(c, prefix, start + 1)
  {
    var p := |prefix|;
    assert c[..p + 1] == prefix + [c[p]];
    forall i | p < i < |c| ensures c[i] >= start + 1 { assert c[p] < c[i]; }
  }

  lemma {:induction false} ChoicesComplete(n: nat, k: nat, start: nat, prefix: Choice, c: Choice)
    requires |prefix| <= k && |c| == k && Increasing(c) && InRange(n, c) && Continues(c, prefix, start)
    ensures c in Choices(n, k, start, prefix)
    decreases n - start
  {
    hide Increasing, InRange, Continues;
    if |prefix| == k {
      WholeChoice(prefix, start, c);
    } else {
      TakesOrSkips(n, start, prefix, c);
      if c[|prefix|] == start {
        ChoicesComplete(n, k, start + 1, prefix + [start], c);
      } else {
        ChoicesComplete(n, k, start + 1, prefix, c);
      }
    }
  }

  lemma WholeChoice(prefix: Choice, start: nat, c: Choice)
    requires |prefix| == |c| && Continues(c, prefix, start)
    ensures c == prefix
  { }

  ghost predicate Sorted(cs: seq<Choice>) {
    forall i, j :: 0 <= i < j < |cs| ==> LexLess(cs[i], cs[j])
  }

  lemma SortedAppend(a: seq<Choice>, b: seq<Choice>)
    requires Sorted(a) && Sorted(b) && forall c, d :: c in a && d in b ==> LexLess(c, d)
    ensures Sorted(a + b)
  {
    hide LexLess;
    forall i, j | 0 <= i < j < |a + b| ensures LexLess((a + b)[i], (a + b)[j]) {
      if i < |a| <= j { assert a[i] in a && b[j - |a|] in b; }
    }
  }

  lemma SortedShort(cs: seq<Choice>)
    requires |cs| <= 1
    ensures Sorted(cs)
  { }

  lemma Deeper(prefix: Choice, start: nat)
    requires Increasing(prefix) && Below(prefix, start)
    ensures Increasing(prefix + [start]) && Below(prefix + [start], start + 1) && Below(prefix, start + 1)
  { }

  lemma {:induction false} ChoicesSorted(n: nat, k: nat, start: nat, prefix: Choice)
    requires |prefix| <= k && Increasing(prefix) && Below(prefix, start)
    ensures Sorted(Choices(n, k, start, prefix))
    decreases n - start
  {
    hide LexLess, Sorted, Increasing, Below, Continues;
    if |prefix| == k || start >= n {
      SortedShort(Choices(n, k, start, prefix));
    } else {
      var takes, skips := Choices(n, k, start + 1, prefix + [start]), Choices(n, k, start + 1, prefix);
      Deeper(prefix, start);
      ChoicesSorted(n, k, start + 1, prefix + [start]);
      ChoicesSorted(n, k, start + 1, prefix);
      ChoicesSound(n, k, start + 1, prefix + [start]);
      ChoicesSound(n, k, start + 1, prefix);
      forall c, d | c in takes && d in skips ensures LexLess(c, d) { FirstDifference(k, start, prefix, c, d); }
      SortedAppend(takes, skips);
    }
  }

  lemma FirstDifference(k: nat, start: nat, prefix: Choice, c: Choice, d: Choice)
    requires |prefix| < k && |c| == k && |d| == k
    requires Continues(c, prefix + [start], start + 1) && Continues(d, prefix, start + 1)
    ensures LexLess(c, d)
  {
    var p := |prefix|;
    assert c[..p] == c[..p + 1][..p] == prefix;
    assert c[p] == c[..p + 1][p] == start;
    assert c[..p] == d[..p] && c[p] < d[p];
  }

  /** `combinations` is exact: its results are the items at the strictly increasing k-element index
      sequences, all of them, in lexicographic order and so each once. */
  lemma CombinationsAreExact<T>(xs: seq<T>, k: nat)
    ensures forall c :: c in Choices(|xs|, k, 0, []) <==> |c| == k && Increasing(c) && InRange(|xs|, c)
    ensures Sorted(Choices(|xs|, k, 0, []))
    ensures |Combos(xs, k, 0, [])| == |Choices(|xs|, k, 0, [])|
    ensures forall j :: 0 <= j < |Choices(|xs|, k, 0, [])| ==>
      InRange(|xs|, Choices(|xs|, k, 0, [])[j]) && Combos(xs, k, 0, [])[j] == Pick(xs, Choices(|xs|, k, 0, [])[j])
  {
    var all := Choices(|xs|, k, 0, []);
    ChoicesSound(|xs|, k, 0, []);
    assert Pick(xs, []) == [];
    CombosArePicks(xs, k, 0, []);
    forall c | |c| == k && Increasing(c) && InRange(|xs|, c) ensures c in all { ChoicesComplete(|xs|, k, 0, [], c); }
    ChoicesSorted(|xs|, k, 0, []);
  }

  /** The first combination takes the first k items. */
  lemma {:induction false} FirstIsPrefix<T>(xs: seq<T>, k: nat, start: nat, prefix: seq<T>)
    requires |prefix| <= k && start <= |xs| && k - |prefix| <= |xs| - start
    ensures Combos(xs, k, start, prefix) != []
    ensures Combos(xs, k, start, prefix)[0] == prefix + xs[start..start + k - |prefix|]
    decreases |xs| - start
  {
    if |prefix| < k {
      FirstIsPrefix(xs, k, start + 1, prefix + [xs[start]]);
      assert [xs[start]] + xs[start + 1..start + k - |prefix|] == xs[start..start + k - |prefix|];
      assert prefix + [xs[start]] + xs[start + 1..start + k - |prefix|]
        == prefix + ([xs[start]] + xs[start + 1..start + k - |prefix|]);
    } else {
      assert prefix + xs[start..start] == prefix;
    }
  }
}
