/**
 * Finite directed graphs given as a map from a node to what it depends on.
 *
 * A graph is cyclic exactly when its nodes cannot be numbered so that every node
 * comes after everything it depends on. Both the visibility rules of a form and
 * the fragments of a GraphQL document are such graphs.
 */
module Graphs {
  import opened Common

  type Graph = map<Key, set<Key>>

  /** `a` depends on `b`, and both are nodes. */
  predicate Edge(g: Graph, a: Key, b: Key) {
    a in g && b in g && b in g[a]
  }

  /** A sequence of nodes, each depending on the next. */
  ghost predicate Walk(g: Graph, p: seq<Key>) {
    forall i, j {:trigger p[i], p[j]} :: 0 <= i < j < |p| && j == i + 1 ==> Edge(g, p[i], p[j])
  }

  ghost predicate Closed(p: seq<Key>) {
    |p| >= 2 && p[0] == p[|p| - 1]
  }

  /** Some walk of at least one edge comes back to where it started. */
  ghost predicate Cyclic(g: Graph) {
    exists p: seq<Key> :: Walk(g, p) && Closed(p)
  }

  /** A numbering that puts everything a node depends on before the node. */
  ghost predicate Numbering(g: Graph, rank: map<Key, nat>) {
    && rank.Keys == g.Keys
    && forall a, b :: Edge(g, a, b) ==> rank[b] < rank[a]
  }

  lemma {:induction false} RankFallsAlongWalk(g: Graph, rank: map<Key, nat>, p: seq<Key>, n: nat)
    requires Numbering(g, rank) && Walk(g, p) && 1 <= n < |p|
    ensures p[0] in rank && p[n] in rank && rank[p[n]] < rank[p[0]]
  {
    assert Edge(g, p[n - 1], p[n]);
    if n > 1 {
      RankFallsAlongWalk(g, rank, p, n - 1);
    }
  }

  lemma NumberingExcludesCycle(g: Graph, rank: map<Key, nat>)
    requires Numbering(g, rank)
    ensures !Cyclic(g)
  {
    if p: seq<Key> :| Walk(g, p) && Closed(p) {
      RankFallsAlongWalk(g, rank, p, |p| - 1);
    }
  }

  ghost predicate DependsInto(g: Graph, nodes: set<Key>, a: Key) {
    exists b :: b in nodes && Edge(g, a, b)
  }

  /** Every node of `stuck` depends on a node of `stuck`. */
  ghost predicate Stuck(g: Graph, stuck: set<Key>) {
    stuck <= g.Keys && forall a {:trigger DependsInto(g, stuck, a)} :: a in stuck ==> DependsInto(g, stuck, a)
  }

  lemma {:induction false} StuckWalk(g: Graph, stuck: set<Key>, n: nat) returns (p: seq<Key>)
    requires Stuck(g, stuck) && stuck != {}
    ensures |p| == n + 1 && Walk(g, p) && forall i :: 0 <= i < |p| ==> p[i] in stuck
  {
    if n == 0 {
      var a :| a in stuck;
      p := [a];
    } else {
      var q := StuckWalk(g, stuck, n - 1);
      assert DependsInto(g, stuck, q[n - 1]);
      var b :| b in stuck && Edge(g, q[n - 1], b);
      p := q + [b];
    }
  }

  /** More positions than values: two positions hold the same value. */
  lemma {:induction false} Pigeonhole(p: seq<Key>, values: set<Key>) returns (i: nat, j: nat)
    requires |p| > |values| && forall k :: 0 <= k < |p| ==> p[k] in values
    ensures i < j < |p| && p[i] == p[j]
  {
    var last := |p| - 1;
    if k :| 0 <= k < last && p[k] == p[last] {
      i, j := k, last;
    } else {
      i, j := Pigeonhole(p[..last], values - {p[last]});
    }
  }

  lemma StuckIsCyclic(g: Graph, stuck: set<Key>)
    requires Stuck(g, stuck) && stuck != {}
    ensures Cyclic(g)
  {
    var p := StuckWalk(g, stuck, |stuck|);
    var i, j := Pigeonhole(p, stuck);
    var loop := p[i..j + 1];
    assert forall k :: 0 <= k < |loop| ==> loop[k] == p[i + k];
    assert Walk(g, loop) && Closed(loop);
  }

  /** The nodes of `done` are numbered, and depend on nothing outside `done`. */
  ghost predicate Settled(g: Graph, done: set<Key>, rank: map<Key, nat>) {
    && done <= g.Keys
    && rank.Keys == done
    && forall a, b :: a in done && Edge(g, a, b) ==> b in done && rank[b] < rank[a]
  }

  /** A settled set can be extended until it is everything, unless the graph is cyclic. */
  lemma {:induction false} NumberingFrom(g: Graph, done: set<Key>, rank: map<Key, nat>)
    returns (full: map<Key, nat>)
    requires Settled(g, done, rank) && !Cyclic(g)
    ensures Numbering(g, full)
    decreases g.Keys - done
  {
    if done == g.Keys {
      full := rank;
    } else if a :| a in g.Keys - done && forall b :: Edge(g, a, b) ==> b in done {
      var top := UpperBound(rank);
      full := NumberingFrom(g, done + {a}, rank[a := top]);
    } else {
      StuckIsCyclic(g, g.Keys - done);
      assert false;
    }
  }

  lemma {:induction false} UpperBound(rank: map<Key, nat>) returns (top: nat)
    ensures forall k :: k in rank ==> rank[k] < top
    decreases |rank|
  {
    if rank.Keys == {} {
      top := 0;
    } else {
      var a :| a in rank;
      var rest := rank - {a};
      assert rest.Keys == rank.Keys - {a};
      assert |rest.Keys| < |rank.Keys|;
      var t := UpperBound(rest);
      top := t + rank[a] + 1;
      forall k | k in rank ensures rank[k] < top {
        if k != a { assert rest[k] < t; }
      }
    }
  }

  lemma AcyclicIffNumbered(g: Graph)
    ensures !Cyclic(g) <==> exists rank :: Numbering(g, rank)
  {
    if !Cyclic(g) {
      var empty: map<Key, nat> := map[];
      var rank := NumberingFrom(g, {}, empty);
    } else {
      forall rank | Numbering(g, rank) ensures false {
        NumberingExcludesCycle(g, rank);
      }
    }
  }

  // ---- Settling one node at a time ----

  /** Everything `key` waits on is settled, or is not a node. */
  predicate Ready(g: Graph, settled: set<Key>, key: Key)
    requires key in g
  {
    forall source :: source in g[key] ==> source in settled || source !in g
  }

  ghost predicate NoneReady(g: Graph, settled: set<Key>, keys: set<Key>) {
    forall k :: k in keys && k in g && k !in settled ==> !Ready(g, settled, k)
  }

  /** The settled nodes are numbered in the order they were settled. */
  ghost predicate SettledInOrder(g: Graph, settled: set<Key>, rank: map<Key, nat>) {
    Settled(g, settled, rank) && forall k :: k in settled ==> rank[k] < |settled|
  }

  lemma SettleOne(g: Graph, settled: set<Key>, rank: map<Key, nat>, key: Key)
    requires SettledInOrder(g, settled, rank)
    requires key in g && key !in settled && Ready(g, settled, key)
    ensures SettledInOrder(g, settled + {key}, rank[key := |settled|])
  {
  }

  /** When a whole pass settles nothing, what is left goes round in a circle. */
  lemma UnsettledIsCyclic(g: Graph, settled: set<Key>)
    requires settled < g.Keys
    requires NoneReady(g, settled, g.Keys)
    ensures |settled| != |g|
    ensures Cyclic(g)
  {
    var left := g.Keys - settled;
    forall a | a in left ensures DependsInto(g, left, a) {
      assert !Ready(g, settled, a);
      var b :| b in g[a] && b !in settled && b in g;
      assert b in left && Edge(g, a, b);
    }
    assert |left| == |g.Keys| - |settled|;
    StuckIsCyclic(g, left);
  }

  /** Once nothing more can be settled, everything is exactly when there is no circle. */
  lemma AllSettledOrCyclic(g: Graph, settled: set<Key>, rank: map<Key, nat>)
    requires SettledInOrder(g, settled, rank) && NoneReady(g, settled, g.Keys)
    ensures |settled| != |g| <==> Cyclic(g)
  {
    if settled == g.Keys {
      NumberingExcludesCycle(g, rank);
    } else {
      UnsettledIsCyclic(g, settled);
    }
  }
}
