/** The greedy merge loop shared by MinWCut and GreedyTP, in place on the slice of groups. */
module GreedyPass {
  import opened Domain
  import opened Evaluation
  import opened Merging

  /** Overwrites the slot with the last live element and shortens the slice by one. */
  method RemoveIndex<T>(s: array<T>, n: nat, idx: nat) returns (m: nat)
    requires idx < n <= s.Length
    modifies s
    ensures m == n - 1
    ensures s[..m] == Removed(old(s[..n]), idx)
  {
    s[idx] := s[n - 1];
    m := n - 1;
  }

  method TryMerge(app: Application, groups: array<Group>, count: nat, c: Candidate) returns (n: nat)
    requires count <= groups.Length
    modifies groups
    ensures n <= count
    ensures groups[..n] == MergeStep(app, old(groups[..count]), c)
  {
    hide MergeProfitUSD, GroupMemory, Owner;
    ghost var gs := groups[..count];
    n := count;
    var idx := FuncToGroupIndex(groups[..n]);
    if c.parent in idx && c.child in idx && idx[c.parent] != idx[c.child] {
      var p, q := idx[c.parent], idx[c.child];
      var memP := GroupMemoryMB(app.nodes, groups[p]);
      var memQ := GroupMemoryMB(app.nodes, groups[q]);
      var profitable := MergeIsProfitable(app.nodes, groups[p], groups[q]);
      if Max(memP, memQ) <= app.maxMemoryMB && profitable {
        assert Accepts(app, gs, c);
        groups[p] := groups[p] + groups[q];
        assert groups[..n] == gs[p := gs[p] + gs[q]];
        n := RemoveIndex(groups, n, q);
      }
    }
  }

  /** Each candidate asks for the owners afresh, and an accepted merge extends the parent's group
      and swap-removes the child's. */
  method GreedyMerge(app: Application, groups: array<Group>, count: nat, candidates: seq<Candidate>) returns (n: nat)
    requires count <= groups.Length
    modifies groups
    ensures n <= count
    ensures groups[..n] == MergeAll(app, old(groups[..count]), candidates)
  {
    n := count;
    for k := 0 to |candidates|
      invariant n <= count
      invariant groups[..n] == MergeAll(app, old(groups[..count]), candidates[..k])
    {
      assert candidates[..k + 1][..k] == candidates[..k];
      n := TryMerge(app, groups, n, candidates[k]);
    }
    assert candidates[..|candidates|] == candidates;
  }

  /** Every edge of the application, in the order of its functions and their children. */
  ghost predicate IsCandidate(app: Application, c: Candidate) {
    && c.parent in app.functions
    && c.child in At(app.nodes, c.parent).children
    && c.cost == DataTransferCostUSD(app.nodes, c.parent, c.child)
  }

  ghost function CallsOf(s: Store, f: Id, k: nat): seq<Candidate>
    requires k <= |At(s, f).children|
  {
    seq(k, i requires 0 <= i < k => Candidate(DataTransferCostUSD(s, f, At(s, f).children[i]), f, At(s, f).children[i]))
  }

  ghost function AllCalls(s: Store, functions: seq<Id>): seq<Candidate> {
    if functions == [] then [] else
    var f := functions[|functions| - 1];
    AllCalls(s, functions[..|functions| - 1]) + CallsOf(s, f, |At(s, f).children|)
  }

  lemma {:induction false} CallsAreCandidates(s: Store, functions: seq<Id>)
    ensures forall c :: c in AllCalls(s, functions) <==>
      && c.parent in functions && c.child in At(s, c.parent).children
      && c.cost == DataTransferCostUSD(s, c.parent, c.child)
  {
    if functions != [] {
      var init, f := functions[..|functions| - 1], functions[|functions| - 1];
      var calls := CallsOf(s, f, |At(s, f).children|);
      CallsAreCandidates(s, init);
      assert functions == init + [f];
      forall c: Candidate |
        c.parent == f && c.child in At(s, f).children && c.cost == DataTransferCostUSD(s, f, c.child)
        ensures c in calls
      {
        var i :| 0 <= i < |At(s, f).children| && At(s, f).children[i] == c.child;
        assert calls[i] == c;
      }
    }
  }

  method CollectCandidates(app: Application) returns (candidates: seq<Candidate>)
    ensures candidates == AllCalls(app.nodes, app.functions)
    ensures forall c :: c in candidates <==> IsCandidate(app, c)
  {
    candidates := [];
    for i := 0 to |app.functions|
      invariant candidates == AllCalls(app.nodes, app.functions[..i])
    {
      var f := app.functions[i];
      var children := At(app.nodes, f).children;
      ghost var before := candidates;
      for k := 0 to |children|
        invariant candidates == before + CallsOf(app.nodes, f, k)
      {
        candidates := candidates + [Candidate(DataTransferCostUSD(app.nodes, f, children[k]), f, children[k])];
        assert CallsOf(app.nodes, f, k + 1) == CallsOf(app.nodes, f, k) + [candidates[|candidates| - 1]];
      }
      assert app.functions[..i + 1][..i] == app.functions[..i];
    }
    assert app.functions[..|app.functions|] == app.functions;
    CallsAreCandidates(app.nodes, app.functions);
  }

  // ---- sorting ----

  predicate SortedByCost(cs: seq<Candidate>) {
    forall i, j :: 0 <= i < j < |cs| ==> cs[i].cost >= cs[j].cost
  }

  /** `order` lists every edge, dearest first; how ties fall is left open. */
  ghost predicate IsMergeOrder(app: Application, order: seq<Candidate>) {
    && SortedByCost(order)
    && forall c :: c in order <==> IsCandidate(app, c)
  }

  lemma SortedIsOrder(app: Application, candidates: seq<Candidate>, order: seq<Candidate>)
    requires multiset(order) == multiset(candidates) && SortedByCost(order)
    requires forall c :: c in candidates <==> IsCandidate(app, c)
    ensures IsMergeOrder(app, order)
  {
    assert forall c :: c in order <==> c in multiset(order);
    assert forall c :: c in candidates <==> c in multiset(candidates);
  }

  type Before = (Candidate, Candidate) -> bool

  /** What a sort needs of its comparison. */
  ghost predicate IsWeakOrder(before: Before) {
    && (forall a, b :: before(a, b) ==> !before(b, a))
    && (forall a, b, c :: before(a, c) ==> before(a, b) || before(b, c))
  }

  ghost predicate Ordered(before: Before, cs: seq<Candidate>) {
    forall i, j :: 0 <= i < j < |cs| ==> !before(cs[j], cs[i])
  }

  lemma Between(before: Before, a: Candidate, b: Candidate, c: Candidate)
    requires IsWeakOrder(before) && !before(b, a) && (b == c || !before(c, b))
    ensures !before(c, a)
  { }

  lemma InsertKeepsOrder(before: Before, sorted: seq<Candidate>, i: nat, c: Candidate)
    requires IsWeakOrder(before) && Ordered(before, sorted) && i <= |sorted|
    requires i > 0 ==> !before(c, sorted[i - 1])
    requires i < |sorted| ==> before(c, sorted[i])
    ensures Ordered(before, sorted[..i] + [c] + sorted[i..])
  {
    var r := sorted[..i] + [c] + sorted[i..];
    forall a, b | 0 <= a < b < |r| ensures !before(r[b], r[a]) {
      var a', b' := if a < i then a else a - 1, if b < i then b else b - 1;
      assert a != i ==> r[a] == sorted[a'];
      assert b != i ==> r[b] == sorted[b'];
      if a == i {
        Between(before, c, sorted[i], sorted[b']);
      } else if b == i {
        Between(before, sorted[a], sorted[i - 1], c);
      }
    }
  }

  method Insert(before: Before, sorted: seq<Candidate>, c: Candidate) returns (r: seq<Candidate>)
    requires IsWeakOrder(before) && Ordered(before, sorted)
    ensures Ordered(before, r) && multiset(r) == multiset(sorted) + multiset{c}
  {
    var i := |sorted|;
    while i > 0 && before(c, sorted[i - 1])
      invariant 0 <= i <= |sorted|
      invariant i < |sorted| ==> before(c, sorted[i])
    {
      i := i - 1;
    }
    InsertKeepsOrder(before, sorted, i, c);
    assert sorted == sorted[..i] + sorted[i..];
    r := sorted[..i] + [c] + sorted[i..];
  }

  /** Some permutation in order; callers learn nothing about how ties fall. */
  method Sort(before: Before, cs: seq<Candidate>) returns (sorted: seq<Candidate>)
    requires IsWeakOrder(before)
    ensures multiset(sorted) == multiset(cs)
    ensures Ordered(before, sorted)
  {
    hide IsWeakOrder, Ordered;
    EmptyOrdered(before);
    sorted := [];
    for k := 0 to |cs|
      invariant multiset(sorted) == multiset(cs[..k])
      invariant Ordered(before, sorted)
    {
      sorted := Insert(before, sorted, cs[k]);
      assert cs[..k + 1] == cs[..k] + [cs[k]];
    }
    assert cs[..|cs|] == cs;
  }

  lemma EmptyOrdered(before: Before)
    ensures Ordered(before, [])
  { }

  /** Dearest first, and nothing said about ties. */
  method SortByCost(cs: seq<Candidate>) returns (sorted: seq<Candidate>)
    ensures multiset(sorted) == multiset(cs)
    ensures SortedByCost(sorted)
  {
    sorted := Sort((a: Candidate, b: Candidate) => a.cost > b.cost, cs);
  }

  // ---- ties broken on ids ----

  predicate LexBefore(a: string, b: string) {
    b != "" && (a == "" || a[0] < b[0] || (a[0] == b[0] && LexBefore(a[1..], b[1..])))
  }

  lemma {:induction false} LexTotal(a: string, b: string)
    ensures LexBefore(a, b) ==> !LexBefore(b, a) && a != b
    ensures a != b ==> LexBefore(a, b) || LexBefore(b, a)
  {
    if a != "" && b != "" && a[0] == b[0] {
      LexTotal(a[1..], b[1..]);
      assert a == [a[0]] + a[1..] && b == [b[0]] + b[1..];
    }
  }

  lemma {:induction false} LexTransitive(a: string, b: string, c: string)
    requires LexBefore(a, b) && LexBefore(b, c)
    ensures LexBefore(a, c)
  {
    if a != "" && a[0] == b[0] && b[0] == c[0] { LexTransitive(a[1..], b[1..], c[1..]); }
  }

  /** Dearest first, ties by the caller's id, then by the callee's. */
  predicate KeyBefore(a: Candidate, b: Candidate) {
    if a.cost != b.cost then a.cost > b.cost
    else if a.parent != b.parent then LexBefore(a.parent.name, b.parent.name)
    else LexBefore(a.child.name, b.child.name)
  }

  lemma KeyTotal(a: Candidate, b: Candidate)
    ensures KeyBefore(a, b) ==> !KeyBefore(b, a)
    ensures a != b ==> KeyBefore(a, b) || KeyBefore(b, a)
  {
    LexTotal(a.parent.name, b.parent.name);
    LexTotal(a.child.name, b.child.name);
  }

  lemma KeyTransitive(a: Candidate, b: Candidate, c: Candidate)
    ensures KeyBefore(a, b) && KeyBefore(b, c) ==> KeyBefore(a, c)
  {
    var (p, q, r) := (a.parent.name, b.parent.name, c.parent.name);
    var (x, y, z) := (a.child.name, b.child.name, c.child.name);
    LexTotal(p, q);
    LexTotal(q, r);
    if LexBefore(p, q) && LexBefore(q, r) {
      LexTransitive(p, q, r);
      LexTotal(p, r);
    }
    if LexBefore(x, y) && LexBefore(y, z) { LexTransitive(x, y, z); }
  }

  lemma KeyIsWeakOrder()
    ensures IsWeakOrder(KeyBefore)
  {
    forall a: Candidate, b: Candidate ensures KeyBefore(a, b) ==> !KeyBefore(b, a) { KeyTotal(a, b); }
    forall a: Candidate, b: Candidate, c: Candidate ensures KeyBefore(a, c) ==> KeyBefore(a, b) || KeyBefore(b, c) {
      KeyTotal(a, b);
      KeyTotal(b, c);
      KeyTransitive(b, c, a);
      KeyTransitive(c, b, a);
      KeyTransitive(a, c, b);
    }
  }

  /** Every edge, once for each time it is listed, dearest first and ties by id. */
  ghost predicate IsTieBroken(app: Application, order: seq<Candidate>) {
    multiset(order) == multiset(AllCalls(app.nodes, app.functions)) && Ordered(KeyBefore, order)
  }

  lemma TieBrokenIsOrder(app: Application, order: seq<Candidate>)
    requires IsTieBroken(app, order)
    ensures IsMergeOrder(app, order)
  {
    CallsAreCandidates(app.nodes, app.functions);
    assert forall c :: c in order <==> c in multiset(order);
    assert forall c :: c in AllCalls(app.nodes, app.functions) <==> c in multiset(AllCalls(app.nodes, app.functions));
    forall i, j | 0 <= i < j < |order| ensures order[i].cost >= order[j].cost { assert !KeyBefore(order[j], order[i]); }
  }

  /** Dictionary order: at the first difference the smaller character, or the end of the word, comes first. */
  ghost predicate ComesBefore(a: string, b: string) {
    exists k: nat :: k <= |a| && k < |b| && a[..k] == b[..k] && (k == |a| || a[k] < b[k])
  }

  lemma {:induction false} LexIsDictionaryOrder(a: string, b: string)
    ensures LexBefore(a, b) <==> ComesBefore(a, b)
  {
    if a != "" && b != "" && a[0] == b[0] {
      LexIsDictionaryOrder(a[1..], b[1..]);
      if ComesBefore(a[1..], b[1..]) {
        var k: nat :| k <= |a[1..]| && k < |b[1..]| && a[1..][..k] == b[1..][..k]
          && (k == |a[1..]| || a[1..][k] < b[1..][k]);
        assert a[..k + 1] == [a[0]] + a[1..][..k] && b[..k + 1] == [b[0]] + b[1..][..k];
      }
      if ComesBefore(a, b) {
        var k: nat :| k <= |a| && k < |b| && a[..k] == b[..k] && (k == |a| || a[k] < b[k]);
        assert k > 0;
        assert a[1..][..k - 1] == a[..k][1..] && b[1..][..k - 1] == b[..k][1..];
      }
    } else {
      FirstCharacters(a, b);
    }
  }

  lemma SameStart(a: string, b: string, k: nat)
    requires k <= |a| && k <= |b| && a[..k] == b[..k]
    ensures k > 0 ==> a[0] == b[0]
  {
    if k > 0 { assert a[..k][0] == b[..k][0]; }
  }

  lemma FirstCharacters(a: string, b: string)
    requires a == "" || b == "" || a[0] != b[0]
    ensures ComesBefore(a, b) <==> b != "" && (a == "" || a[0] < b[0])
  {
    if b != "" && (a == "" || a[0] < b[0]) { assert a[..0] == b[..0]; }
    if ComesBefore(a, b) {
      var k: nat :| k <= |a| && k < |b| && a[..k] == b[..k] && (k == |a| || a[k] < b[k]);
      SameStart(a, b, k);
    }
  }

  /** The dearer call first; of one cost by the caller's id, and of one caller by the callee's. */
  ghost predicate IsNoLater(a: Candidate, b: Candidate) {
    || a.cost > b.cost
    || (a.cost == b.cost && ComesBefore(a.parent.name, b.parent.name))
    || (a.cost == b.cost && a.parent == b.parent && (a.child == b.child || ComesBefore(a.child.name, b.child.name)))
  }

  lemma OrderedMeans(cs: seq<Candidate>)
    requires Ordered(KeyBefore, cs)
    ensures forall i, j :: 0 <= i < j < |cs| ==> IsNoLater(cs[i], cs[j])
  {
    hide ComesBefore, LexBefore;
    forall i, j | 0 <= i < j < |cs| ensures IsNoLater(cs[i], cs[j]) {
      var a, b := cs[i], cs[j];
      assert !KeyBefore(b, a);
      LexTotal(a.parent.name, b.parent.name);
      LexTotal(a.child.name, b.child.name);
      LexIsDictionaryOrder(a.parent.name, b.parent.name);
      LexIsDictionaryOrder(a.child.name, b.child.name);
    }
  }

  /** One multiset has one order: nothing is left to the sort. */
  lemma {:induction false} OneOrder(xs: seq<Candidate>, ys: seq<Candidate>)
    requires multiset(xs) == multiset(ys) && Ordered(KeyBefore, xs) && Ordered(KeyBefore, ys)
    ensures xs == ys
  {
    hide KeyBefore, Ordered;
    assert |xs| == |multiset(xs)| == |multiset(ys)| == |ys|;
    if xs != [] {
      TailOrdered(xs);
      TailOrdered(ys);
      OneHead(xs, ys);
      OneHead(ys, xs);
      KeyTotal(xs[0], ys[0]);
      assert xs == [xs[0]] + xs[1..] && ys == [ys[0]] + ys[1..];
      assert multiset(xs[1..]) == multiset(xs) - multiset{xs[0]};
      assert multiset(ys[1..]) == multiset(ys) - multiset{ys[0]};
      OneOrder(xs[1..], ys[1..]);
    }
  }

  lemma TailOrdered(xs: seq<Candidate>)
    requires xs != [] && Ordered(KeyBefore, xs)
    ensures Ordered(KeyBefore, xs[1..])
  { }

  lemma OneHead(xs: seq<Candidate>, ys: seq<Candidate>)
    requires xs != [] && ys != [] && multiset(xs) == multiset(ys) && Ordered(KeyBefore, ys)
    ensures xs[0] == ys[0] || !KeyBefore(xs[0], ys[0])
  {
    hide KeyBefore;
    assert xs[0] in multiset(xs);
    var i :| 0 <= i < |ys| && ys[i] == xs[0];
  }

  method SortByKey(app: Application, cs: seq<Candidate>) returns (sorted: seq<Candidate>)
    requires cs == AllCalls(app.nodes, app.functions)
    ensures IsTieBroken(app, sorted)
    ensures forall i, j :: 0 <= i < j < |sorted| ==> IsNoLater(sorted[i], sorted[j])
  {
    KeyIsWeakOrder();
    sorted := Sort(KeyBefore, cs);
    OrderedMeans(sorted);
  }
}
