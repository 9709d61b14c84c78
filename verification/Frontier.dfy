/** Pareto analysis over the finished results. */
module Frontier {
  import opened Domain
  import opened Results

  predicate Dominates(a: AlgorithmResult, b: AlgorithmResult) {
    && a.metrics.feasible && b.metrics.feasible
    && a.metrics.totalCostUSD <= b.metrics.totalCostUSD && a.metrics.latencyMS <= b.metrics.latencyMS
    && (a.metrics.totalCostUSD < b.metrics.totalCostUSD || a.metrics.latencyMS < b.metrics.latencyMS)
  }

  predicate IsOption(r: AlgorithmResult) {
    r.metrics.feasible && r.error == ""
  }

  /** Some other error-free result dominates the i-th. */
  ghost predicate Beaten(rs: seq<AlgorithmResult>, i: nat)
    requires i < |rs|
  {
    IsOption(rs[i]) && exists j :: 0 <= j < |rs| && j != i && rs[j].error == "" && Dominates(rs[j], rs[i])
  }

  /** The i-th result after marking: everything but the mark unchanged, and the mark names the
      first result that dominates it. */
  ghost predicate MarkedAt(was: seq<AlgorithmResult>, now: AlgorithmResult, i: nat)
    requires i < |was|
  {
    && now == was[i].(dominated := now.dominated, dominatedBy := now.dominatedBy)
    && (now.dominated <==> Beaten(was, i))
    && (!now.dominated ==> now.dominatedBy == "")
    && (now.dominated ==> exists j ::
        && 0 <= j < |was| && j != i && was[j].error == "" && Dominates(was[j], was[i]) && now.dominatedBy == was[j].name
        && forall k :: 0 <= k < j && k != i && was[k].error == "" ==> !Dominates(was[k], was[i]))
  }

  ghost predicate SameBut(a: AlgorithmResult, b: AlgorithmResult) {
    a == b.(dominated := a.dominated, dominatedBy := a.dominatedBy)
  }

  method MarkOne(results: array<AlgorithmResult>, i: nat, ghost was: seq<AlgorithmResult>)
    requires i < results.Length == |was|
    requires forall k :: 0 <= k < |was| ==> SameBut(results[k], was[k])
    modifies results
    ensures forall k :: 0 <= k < |was| && k != i ==> results[k] == old(results[k])
    ensures MarkedAt(was, results[i], i)
  {
    results[i] := results[i].(dominated := false, dominatedBy := "");
    if !results[i].metrics.feasible || results[i].error != "" {
      return;
    }
    for j := 0 to results.Length
      invariant results[i] == was[i].(dominated := false, dominatedBy := "")
      invariant forall k :: 0 <= k < |was| && k != i ==> results[k] == old(results[k])
      invariant forall k :: 0 <= k < j && k != i && was[k].error == "" ==> !Dominates(was[k], was[i])
    {
      assert SameBut(results[j], was[j]);
      if i == j || results[j].error != "" {
        continue;
      }
      if Dominates(results[j], results[i]) {
        results[i] := results[i].(dominated := true, dominatedBy := results[j].name);
        return;
      }
    }
  }

  /** Marks in place; whatever marks were there before are overwritten. */
  method MarkFrontier(results: array<AlgorithmResult>)
    modifies results
    ensures forall i :: 0 <= i < results.Length ==> MarkedAt(old(results[..]), results[i], i)
  {
    ghost var was := results[..];
    for i := 0 to results.Length
      invariant forall k :: 0 <= k < i ==> MarkedAt(was, results[k], k)
      invariant forall k :: i <= k < results.Length ==> results[k] == was[k]
    {
      MarkOne(results, i, was);
    }
  }

  /** What a mark says, in numbers: the result is feasible and without error, and so is another that costs
      no more and is no slower, one of the two strictly. The mark names the first such. */
  lemma MarkedExactly(was: seq<AlgorithmResult>, now: AlgorithmResult, i: nat)
    requires i < |was| && MarkedAt(was, now, i)
    ensures now.dominated <==>
      && was[i].metrics.feasible && was[i].error == ""
      && exists j ::
        && 0 <= j < |was| && j != i && was[j].metrics.feasible && was[j].error == ""
        && was[j].metrics.totalCostUSD <= was[i].metrics.totalCostUSD
        && was[j].metrics.latencyMS <= was[i].metrics.latencyMS
        && (was[j].metrics.totalCostUSD < was[i].metrics.totalCostUSD
            || was[j].metrics.latencyMS < was[i].metrics.latencyMS)
    ensures now.dominated ==> exists j ::
      && 0 <= j < |was| && now.dominatedBy == was[j].name && Dominates(was[j], was[i]) && was[j].error == ""
      && forall k :: 0 <= k < j && k != i && was[k].error == "" && was[k].metrics.feasible ==>
          || was[k].metrics.totalCostUSD > was[i].metrics.totalCostUSD
          || was[k].metrics.latencyMS > was[i].metrics.latencyMS
          || SamePoint(was[k], was[i])
  {
    if Beaten(was, i) {
      var j :| 0 <= j < |was| && j != i && was[j].error == "" && Dominates(was[j], was[i]);
      assert was[j].metrics.feasible;
    }
  }

  /** An option cheaper than every other, or faster than every other, is never marked: a trade between
      the two axes stays open. */
  lemma ExtremesStayOpen(was: seq<AlgorithmResult>, now: AlgorithmResult, i: nat)
    requires i < |was| && MarkedAt(was, now, i)
    requires
      || (forall j :: 0 <= j < |was| && j != i && was[j].metrics.feasible && was[j].error == "" ==>
          was[i].metrics.totalCostUSD < was[j].metrics.totalCostUSD)
      || (forall j :: 0 <= j < |was| && j != i && was[j].metrics.feasible && was[j].error == "" ==>
          was[i].metrics.latencyMS < was[j].metrics.latencyMS)
    ensures !now.dominated && now.dominatedBy == ""
  { MarkedExactly(was, now, i); }

  /** `Dominates` is a strict partial order. */
  lemma DominatesIsStrictOrder(a: AlgorithmResult, b: AlgorithmResult, c: AlgorithmResult)
    ensures !Dominates(a, a)
    ensures Dominates(a, b) ==> !Dominates(b, a)
    ensures Dominates(a, b) && Dominates(b, c) ==> Dominates(a, c)
  { }

  ghost function Beaters(rs: seq<AlgorithmResult>, i: nat): set<int>
    requires i < |rs|
  {
    set j | 0 <= j < |rs| && rs[j].error == "" && Dominates(rs[j], rs[i])
  }

  /** Marking is complete: whatever is beaten is beaten by something that is not. */
  lemma {:induction false} BeatenByUnbeaten(rs: seq<AlgorithmResult>, i: nat) returns (j: nat)
    requires i < |rs| && Beaten(rs, i)
    ensures j < |rs| && IsOption(rs[j]) && !Beaten(rs, j) && Dominates(rs[j], rs[i])
    decreases Beaters(rs, i)
  {
    var k: nat :| k < |rs| && k != i && rs[k].error == "" && Dominates(rs[k], rs[i]);
    if Beaten(rs, k) {
      assert k in Beaters(rs, i) && k !in Beaters(rs, k);
      assert Beaters(rs, k) <= Beaters(rs, i);
      j := BeatenByUnbeaten(rs, k);
    } else {
      j := k;
    }
  }

  // ---- extremes ----

  ghost predicate FirstCheapest(rs: seq<AlgorithmResult>, n: nat, c: nat)
    requires n <= |rs|
  {
    && c < n && IsOption(rs[c])
    && (forall i :: 0 <= i < n && IsOption(rs[i]) ==> rs[c].metrics.totalCostUSD <= rs[i].metrics.totalCostUSD)
    && forall i :: 0 <= i < c && IsOption(rs[i]) ==> rs[c].metrics.totalCostUSD < rs[i].metrics.totalCostUSD
  }

  ghost predicate FirstFastest(rs: seq<AlgorithmResult>, n: nat, f: nat)
    requires n <= |rs|
  {
    && f < n && IsOption(rs[f])
    && (forall i :: 0 <= i < n && IsOption(rs[i]) ==> rs[f].metrics.latencyMS <= rs[i].metrics.latencyMS)
    && forall i :: 0 <= i < f && IsOption(rs[i]) ==> rs[f].metrics.latencyMS < rs[i].metrics.latencyMS
  }

  ghost predicate SamePoint(a: AlgorithmResult, b: AlgorithmResult) {
    a.metrics.totalCostUSD == b.metrics.totalCostUSD && a.metrics.latencyMS == b.metrics.latencyMS
  }

  method Extremes(rs: seq<AlgorithmResult>) returns (cheapest: Option<nat>, fastest: Option<nat>, unambiguous: bool)
    ensures cheapest.Some? <==> exists i :: 0 <= i < |rs| && IsOption(rs[i])
    ensures fastest.Some? <==> cheapest.Some?
    ensures cheapest.Some? ==> FirstCheapest(rs, |rs|, cheapest.value)
    ensures fastest.Some? ==> FirstFastest(rs, |rs|, fastest.value)
    ensures unambiguous <==> cheapest.Some? && SamePoint(rs[cheapest.value], rs[fastest.value])
  {
    cheapest, fastest := None, None;
    for i := 0 to |rs|
      invariant cheapest.Some? ==> FirstCheapest(rs, i, cheapest.value)
      invariant fastest.Some? ==> FirstFastest(rs, i, fastest.value)
      invariant cheapest.None? ==> forall k :: 0 <= k < i ==> !IsOption(rs[k])
      invariant fastest.Some? <==> cheapest.Some?
    {
      if !rs[i].metrics.feasible || rs[i].error != "" {
        continue;
      }
      if cheapest.None? || rs[i].metrics.totalCostUSD < rs[cheapest.value].metrics.totalCostUSD {
        cheapest := Some(i);
      }
      if fastest.None? || rs[i].metrics.latencyMS < rs[fastest.value].metrics.latencyMS {
        fastest := Some(i);
      }
    }
    if cheapest.None? || fastest.None? {
      return cheapest, fastest, false;
    }
    var c, f := rs[cheapest.value].metrics, rs[fastest.value].metrics;
    unambiguous := c.totalCostUSD == f.totalCostUSD && c.latencyMS == f.latencyMS;
  }

  ghost predicate BestOnBoth(rs: seq<AlgorithmResult>, i: nat)
    requires i < |rs|
  {
    IsOption(rs[i]) && forall j :: 0 <= j < |rs| && IsOption(rs[j]) ==>
      rs[i].metrics.totalCostUSD <= rs[j].metrics.totalCostUSD && rs[i].metrics.latencyMS <= rs[j].metrics.latencyMS
  }

  /** With no trade to present, the frontier is a single point that attains both minima: an option
      is unmarked exactly when it sits there. */
  lemma UnambiguousMeansOnePoint(rs: seq<AlgorithmResult>, c: nat, f: nat)
    requires FirstCheapest(rs, |rs|, c) && FirstFastest(rs, |rs|, f) && SamePoint(rs[c], rs[f])
    ensures BestOnBoth(rs, c)
    ensures forall i :: 0 <= i < |rs| && IsOption(rs[i]) ==> (!Beaten(rs, i) <==> SamePoint(rs[i], rs[c]))
  {
    forall i | 0 <= i < |rs| && IsOption(rs[i]) ensures !Beaten(rs, i) <==> SamePoint(rs[i], rs[c]) {
      if !SamePoint(rs[i], rs[c]) {
        assert Dominates(rs[c], rs[i]) && c != i;
      }
    }
  }

  /** No option before `b` ties with it on one axis alone. */
  ghost predicate NoHalfTieBefore(rs: seq<AlgorithmResult>, b: nat)
    requires b < |rs|
  {
    forall i :: 0 <= i < b && IsOption(rs[i]) ==>
      (rs[i].metrics.totalCostUSD == rs[b].metrics.totalCostUSD <==> rs[i].metrics.latencyMS == rs[b].metrics.latencyMS)
  }

  /** First-wins ties can hide a single best option. Read off the list alone: the flag is set exactly
      when some option is best on both axes and no option before it ties with it on one axis only. */
  lemma UnambiguousExactly(rs: seq<AlgorithmResult>, c: nat, f: nat)
    requires FirstCheapest(rs, |rs|, c) && FirstFastest(rs, |rs|, f)
    ensures SamePoint(rs[c], rs[f]) <==> exists b: nat :: b < |rs| && BestOnBoth(rs, b) && NoHalfTieBefore(rs, b)
  {
    if SamePoint(rs[c], rs[f]) {
      assert BestOnBoth(rs, c);
      forall i | 0 <= i < c && IsOption(rs[i]) ensures rs[i].metrics.latencyMS != rs[c].metrics.latencyMS {
        assert c <= f;
      }
      assert NoHalfTieBefore(rs, c);
    }
    if b: nat :| b < |rs| && BestOnBoth(rs, b) && NoHalfTieBefore(rs, b) {
      assert c <= b && f <= b;
      assert IsOption(rs[c]) && IsOption(rs[f]);
    }
  }

  function Plain(name: string, cost: real, latency: int): AlgorithmResult {
    AlgorithmResult(name, [], Metrics(cost, latency, true), "", false, "")
  }

  /** The tie in the open: the second of these is best on both axes, yet the first is reported as
      cheapest and the flag stays down. */
  lemma TieHidesBest()
    ensures var rs := [Plain("slow", 1.0, 5), Plain("quick", 1.0, 3)];
      && BestOnBoth(rs, 1) && FirstCheapest(rs, 2, 0) && FirstFastest(rs, 2, 1)
      && Beaten(rs, 0) && !SamePoint(rs[0], rs[1])
  {
    var rs := [Plain("slow", 1.0, 5), Plain("quick", 1.0, 3)];
    assert Dominates(rs[1], rs[0]);
  }

  /** A dearer, faster option next to a cheaper, slower one: neither is marked. */
  lemma TradeStaysOpen(now: seq<AlgorithmResult>)
    requires |now| == 2
    requires var rs := [Plain("cheap", 1.0, 100), Plain("fast", 2.0, 50)];
      MarkedAt(rs, now[0], 0) && MarkedAt(rs, now[1], 1)
    ensures !now[0].dominated && !now[1].dominated
  {
    hide MarkedAt, Beaten;
    var rs := [Plain("cheap", 1.0, 100), Plain("fast", 2.0, 50)];
    ExtremesStayOpen(rs, now[0], 0);
    ExtremesStayOpen(rs, now[1], 1);
  }
}
