/** Breadth-first search over the call graph: what its queue and distances mean at every moment. */
module Bfs {
  import opened Sums
  import opened Domain

  /** A walk of exactly n calls from `u` to `v`. */
  ghost predicate Walk(s: Store, u: Id, v: Id, n: nat)
    decreases n
  {
    if n == 0 then u == v else exists w :: Walk(s, u, w, n - 1) && v in At(s, w).children
  }

  ghost predicate Reaches(s: Store, sources: set<Id>, v: Id) {
    exists b, n: nat :: b in sources && Walk(s, b, v, n)
  }

  lemma {:induction false} WalkAppend(s: Store, u: Id, v: Id, w: Id, m: nat, n: nat)
    requires Walk(s, u, v, m) && Walk(s, v, w, n)
    ensures Walk(s, u, w, m + n)
    decreases n
  {
    if n > 0 {
      var x :| Walk(s, v, x, n - 1) && w in At(s, x).children;
      WalkAppend(s, u, v, x, m, n - 1);
    }
  }

  lemma {:induction false} WalkInside(app: Application, u: Id, v: Id, n: nat)
    requires WellFormed(app) && u in app.functions && Walk(app.nodes, u, v, n)
    ensures v in app.functions
    decreases n
  {
    if n > 0 {
      var w :| Walk(app.nodes, u, w, n - 1) && v in At(app.nodes, w).children;
      WalkInside(app, u, w, n - 1);
      assert WellFormedNode(app, w);
      assert v in Elems(At(app.nodes, w).children);
    }
  }

  ghost predicate Tracked(queue: seq<Id>, dist: map<Id, nat>, origin: map<Id, Id>) {
    Distinct(queue) && dist.Keys == origin.Keys && forall v :: v in queue <==> v in dist
  }

  ghost predicate Found(s: Store, sources: set<Id>, dist: map<Id, nat>, origin: map<Id, Id>) {
    && dist.Keys == origin.Keys
    && (forall b :: b in sources ==> b in dist && dist[b] == 0)
    && (forall v :: v in dist ==> origin[v] in sources && Walk(s, origin[v], v, dist[v]))
  }

  /** Distances never fall along the queue, and span at most one step beyond its head. */
  ghost predicate Layered(queue: seq<Id>, head: nat, dist: map<Id, nat>)
    requires forall v :: v in queue ==> v in dist
  {
    && (forall i, j :: 0 <= i <= j < |queue| ==> dist[queue[i]] <= dist[queue[j]])
    && (head < |queue| ==> forall j :: 0 <= j < |queue| ==> dist[queue[j]] <= dist[queue[head]] + 1)
  }

  /** The first k children of `u` have been found, one step out at most. */
  ghost predicate ChildrenDone(s: Store, u: Id, k: nat, dist: map<Id, nat>)
    requires u in dist
  {
    k <= |At(s, u).children| && forall c :: c in At(s, u).children[..k] ==> c in dist && dist[c] <= dist[u] + 1
  }

  ghost predicate AllDone(s: Store, queue: seq<Id>, head: nat, dist: map<Id, nat>)
    requires forall v :: v in queue ==> v in dist
  {
    forall i :: 0 <= i < head && i < |queue| ==> ChildrenDone(s, queue[i], |At(s, queue[i]).children|, dist)
  }

  /** The first `head` queued nodes are done and `k` children of the next one have been looked at. */
  ghost predicate BfsState(s: Store, sources: set<Id>, queue: seq<Id>, head: nat, k: nat, dist: map<Id, nat>,
      origin: map<Id, Id>) {
    && head <= |queue|
    && Tracked(queue, dist, origin) && Found(s, sources, dist, origin)
    && Layered(queue, head, dist) && AllDone(s, queue, head, dist)
    && (head < |queue| ==> ChildrenDone(s, queue[head], k, dist))
  }

  lemma DoneGrows(s: Store, u: Id, k: nat, dist: map<Id, nat>, c: Id, d: nat)
    requires u in dist && ChildrenDone(s, u, k, dist) && c !in dist
    ensures ChildrenDone(s, u, k, dist[c := d])
  { }

  lemma PushTracked(queue: seq<Id>, dist: map<Id, nat>, origin: map<Id, Id>, c: Id, d: nat, o: Id)
    requires Tracked(queue, dist, origin) && c !in dist
    ensures Tracked(queue + [c], dist[c := d], origin[c := o])
  { }

  lemma PushDone(s: Store, queue: seq<Id>, head: nat, dist: map<Id, nat>, c: Id, d: nat)
    requires (forall v :: v in queue ==> v in dist) && head <= |queue| && AllDone(s, queue, head, dist) && c !in dist
    ensures AllDone(s, queue + [c], head, dist[c := d])
  {
    var queue', dist' := queue + [c], dist[c := d];
    forall i | 0 <= i < head ensures ChildrenDone(s, queue'[i], |At(s, queue'[i]).children|, dist') {
      assert queue'[i] == queue[i];
      DoneGrows(s, queue[i], |At(s, queue[i]).children|, dist, c, d);
    }
  }

  lemma PushChild(s: Store, u: Id, k: nat, dist: map<Id, nat>, c: Id)
    requires u in dist && ChildrenDone(s, u, k, dist) && c !in dist && k < |At(s, u).children|
    requires At(s, u).children[k] == c
    ensures ChildrenDone(s, u, k + 1, dist[c := dist[u] + 1])
  {
    assert At(s, u).children[..k + 1] == At(s, u).children[..k] + [c];
  }

  /** An unseen child joins the back of the queue one step further out. */
  lemma PushKeeps(s: Store, sources: set<Id>, queue: seq<Id>, head: nat, k: nat, dist: map<Id, nat>,
      origin: map<Id, Id>)
    requires BfsState(s, sources, queue, head, k, dist, origin) && head < |queue| && k < |At(s, queue[head]).children|
    requires At(s, queue[head]).children[k] !in dist
    ensures var u, c := queue[head], At(s, queue[head]).children[k];
      BfsState(s, sources, queue + [c], head, k + 1, dist[c := dist[u] + 1], origin[c := origin[u]])
  {
    hide Walk, Layered, Found, ChildrenDone, AllDone;
    var u, c := queue[head], At(s, queue[head]).children[k];
    PushTracked(queue, dist, origin, c, dist[u] + 1, origin[u]);
    PushFound(s, sources, dist, origin, u, c);
    PushLayered(queue, head, dist, c);
    PushDone(s, queue, head, dist, c, dist[u] + 1);
    PushChild(s, u, k, dist, c);
  }

  lemma PushFound(s: Store, sources: set<Id>, dist: map<Id, nat>, origin: map<Id, Id>, u: Id, c: Id)
    requires Found(s, sources, dist, origin) && u in dist && c !in dist && c in At(s, u).children
    ensures Found(s, sources, dist[c := dist[u] + 1], origin[c := origin[u]])
  {
    assert Walk(s, origin[u], c, dist[u] + 1);
  }

  lemma PushLayered(queue: seq<Id>, head: nat, dist: map<Id, nat>, c: Id)
    requires head < |queue| && c !in dist && forall v :: v in queue ==> v in dist
    requires Layered(queue, head, dist)
    ensures Layered(queue + [c], head, dist[c := dist[queue[head]] + 1])
  {
    var queue', dist' := queue + [c], dist[c := dist[queue[head]] + 1];
    assert forall i :: 0 <= i < |queue| ==> queue'[i] == queue[i] && dist'[queue'[i]] == dist[queue[i]];
  }

  lemma SkipKeeps(s: Store, sources: set<Id>, queue: seq<Id>, head: nat, k: nat, dist: map<Id, nat>,
      origin: map<Id, Id>)
    requires BfsState(s, sources, queue, head, k, dist, origin) && head < |queue| && k < |At(s, queue[head]).children|
    requires At(s, queue[head]).children[k] in dist
    ensures BfsState(s, sources, queue, head, k + 1, dist, origin)
  {
    hide Found, AllDone;
    var u, c := queue[head], At(s, queue[head]).children[k];
    assert c in queue;
    assert At(s, u).children[..k + 1] == At(s, u).children[..k] + [c];
  }

  lemma NextKeeps(s: Store, sources: set<Id>, queue: seq<Id>, head: nat, dist: map<Id, nat>, origin: map<Id, Id>)
    requires head < |queue| && BfsState(s, sources, queue, head, |At(s, queue[head]).children|, dist, origin)
    ensures BfsState(s, sources, queue, head + 1, 0, dist, origin)
  {
    hide Found;
    if head + 1 < |queue| {
      assert dist[queue[head]] <= dist[queue[head + 1]];
    }
  }

  lemma StartState(s: Store, queue: seq<Id>, dist: map<Id, nat>, origin: map<Id, Id>)
    requires Distinct(queue) && dist.Keys == origin.Keys == Elems(queue)
    requires forall b :: b in dist ==> dist[b] == 0 && origin[b] == b
    ensures BfsState(s, Elems(queue), queue, 0, 0, dist, origin)
  {
    forall v | v in dist ensures Walk(s, origin[v], v, dist[v]) { }
  }

  lemma {:induction false} EveryWalkIsFound(s: Store, sources: set<Id>, queue: seq<Id>, dist: map<Id, nat>,
      origin: map<Id, Id>, b: Id, v: Id, n: nat)
    requires BfsState(s, sources, queue, |queue|, 0, dist, origin)
    requires b in sources && Walk(s, b, v, n)
    ensures v in dist && dist[v] <= n
    decreases n
  {
    hide Found, Layered, AllDone;
    if n == 0 {
      SourceFound(s, sources, dist, origin, b);
    } else {
      var w :| Walk(s, b, w, n - 1) && v in At(s, w).children;
      EveryWalkIsFound(s, sources, queue, dist, origin, b, w, n - 1);
      QueuedChild(s, queue, dist, w, v);
    }
  }

  lemma SourceFound(s: Store, sources: set<Id>, dist: map<Id, nat>, origin: map<Id, Id>, b: Id)
    requires Found(s, sources, dist, origin) && b in sources
    ensures b in dist && dist[b] == 0
  { }

  lemma QueuedChild(s: Store, queue: seq<Id>, dist: map<Id, nat>, w: Id, v: Id)
    requires (forall x :: x in queue <==> x in dist) && AllDone(s, queue, |queue|, dist)
    requires w in dist && v in At(s, w).children
    ensures v in dist && dist[v] <= dist[w] + 1
  {
    var children := At(s, w).children;
    assert w in queue;
    var i :| 0 <= i < |queue| && queue[i] == w;
    assert ChildrenDone(s, w, |children|, dist);
    assert children[..|children|] == children;
  }

  /** `origin` sends exactly the reachable functions each to a source at minimum distance. */
  ghost predicate Nearest(s: Store, sources: set<Id>, dist: map<Id, nat>, origin: map<Id, Id>) {
    && dist.Keys == origin.Keys
    && (forall v :: v in origin <==> Reaches(s, sources, v))
    && (forall v :: v in origin ==> origin[v] in sources && Walk(s, origin[v], v, dist[v]))
    && (forall v, b, n: nat :: b in sources && Walk(s, b, v, n) ==> v in dist && dist[v] <= n)
  }

  lemma ReachesIsFound(s: Store, sources: set<Id>, queue: seq<Id>, dist: map<Id, nat>, origin: map<Id, Id>, v: Id)
    requires BfsState(s, sources, queue, |queue|, 0, dist, origin)
    ensures v in dist <==> Reaches(s, sources, v)
  {
    hide Walk, AllDone, Layered;
    if v in dist {
      assert origin[v] in sources && Walk(s, origin[v], v, dist[v]);
    }
    if Reaches(s, sources, v) {
      var b, n: nat :| b in sources && Walk(s, b, v, n);
      EveryWalkIsFound(s, sources, queue, dist, origin, b, v, n);
    }
  }

  lemma FoundSoFar(s: Store, sources: set<Id>, queue: seq<Id>, dist: map<Id, nat>, origin: map<Id, Id>)
    requires BfsState(s, sources, queue, |queue|, 0, dist, origin)
    ensures dist.Keys == origin.Keys && forall v :: v in queue <==> v in dist
    ensures forall v :: v in origin ==> origin[v] in sources && Walk(s, origin[v], v, dist[v])
  {
    hide Walk, AllDone, Layered;
  }

  /** When the queue is exhausted the search is complete and shortest, on any graph, cyclic or not. */
  lemma FinishedIsNearest(s: Store, sources: set<Id>, queue: seq<Id>, dist: map<Id, nat>, origin: map<Id, Id>)
    requires BfsState(s, sources, queue, |queue|, 0, dist, origin)
    ensures Nearest(s, sources, dist, origin)
    ensures forall v :: v in queue <==> Reaches(s, sources, v)
  {
    hide Walk, BfsState, Reaches;
    FoundSoFar(s, sources, queue, dist, origin);
    forall v, b, n: nat | b in sources && Walk(s, b, v, n) ensures v in dist && dist[v] <= n {
      EveryWalkIsFound(s, sources, queue, dist, origin, b, v, n);
    }
    forall v ensures v in dist <==> Reaches(s, sources, v) {
      ReachesIsFound(s, sources, queue, dist, origin, v);
    }
  }

  /** Everything a search can ever queue. */
  ghost function Universe(s: Store, sources: set<Id>): set<Id> {
    sources + set x, c | x in s && c in s[x].children :: c
  }

  lemma ChildInUniverse(s: Store, sources: set<Id>, u: Id, c: Id)
    requires c in At(s, u).children
    ensures c in Universe(s, sources)
  { }

  lemma {:induction false} WalkInUniverse(s: Store, sources: set<Id>, b: Id, v: Id, n: nat)
    requires b in sources && Walk(s, b, v, n)
    ensures v in Universe(s, sources)
    decreases n
  {
    if n > 0 {
      var w :| Walk(s, b, w, n - 1) && v in At(s, w).children;
      ChildInUniverse(s, sources, w, v);
    }
  }

  /** The queue cannot outgrow the universe: what is left of it is a termination measure. */
  lemma QueueWithinUniverse(s: Store, sources: set<Id>, queue: seq<Id>, head: nat, k: nat, dist: map<Id, nat>,
      origin: map<Id, Id>)
    requires BfsState(s, sources, queue, head, k, dist, origin)
    ensures Elems(queue) <= Universe(s, sources)
    ensures |queue| == |Elems(queue)| <= |Universe(s, sources)|
  {
    forall v | v in Elems(queue) ensures v in Universe(s, sources) {
      WalkInUniverse(s, sources, origin[v], v, dist[v]);
    }
    DistinctSize(queue);
    SubsetSize(Elems(queue), Universe(s, sources));
  }

  lemma {:induction false} DistinctSize(xs: seq<Id>)
    requires Distinct(xs)
    ensures |Elems(xs)| == |xs|
  {
    if xs == [] {
      assert Elems(xs) == {};
    } else {
      DistinctSize(xs[..|xs| - 1]);
      assert Elems(xs) == Elems(xs[..|xs| - 1]) + {xs[|xs| - 1]};
    }
  }

  lemma {:induction false} SubsetSize(a: set<Id>, b: set<Id>)
    requires a <= b
    ensures |a| <= |b|
    decreases a
  {
    if a != {} {
      var x :| x in a;
      SubsetSize(a - {x}, b - {x});
    }
  }
}
