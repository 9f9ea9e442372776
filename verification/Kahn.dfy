/** Kahn's loop: counts of unvisited dependencies, a queue of ready nodes. */
module Kahn {
  import opened Collections
  import opened Graphs

  /** `dependents` lists, for every node, those that depend on it. */
  ghost predicate Reverses<T(!new)>(g: Graph<T>, dependents: map<T, seq<T>>) {
    && dependents.Keys == g.Keys
    && forall u {:trigger ReversesAt(g, u, dependents[u])} :: u in g ==> ReversesAt(g, u, dependents[u])
  }

  ghost predicate ReversesAt<T(!new)>(g: Graph<T>, u: T, list: seq<T>) {
    && Distinct(list)
    && (forall d :: d in list ==> d in g && u in g[d])
    && forall d :: d in g && u in g[d] ==> d in list
  }

  ghost function Unvisited<T(!new)>(g: Graph<T>, done: set<T>, d: T): nat
    requires d in g
  {
    |g[d] - done|
  }

  /** A node's count is the number of its dependencies not yet visited, less
      one if the node is in `seen`. */
  ghost predicate Count<T(!new)>(g: Graph<T>, done: set<T>, seen: seq<T>, indegree: map<T, int>, d: T) {
    d in g && d in indegree && indegree[d] == Unvisited(g, done, d) - if d in seen then 1 else 0
  }

  /** While `current` is being visited after `done`, `seen` are those of its
      dependents that have been decremented. */
  ghost predicate Counts<T(!new)>(g: Graph<T>, done: set<T>, seen: seq<T>, indegree: map<T, int>) {
    && indegree.Keys == g.Keys
    && forall d {:trigger Count(g, done, seen, indegree, d)} :: d in g ==> Count(g, done, seen, indegree, d)
  }

  /** No node is queued twice. */
  ghost predicate NoRepeats<T(!new)>(queue: seq<T>) {
    queue == [] || (queue[0] !in queue[1..] && NoRepeats(queue[1..]))
  }

  lemma {:induction false} Enqueue<T(!new)>(queue: seq<T>, d: T)
    requires NoRepeats(queue) && d !in queue
    ensures NoRepeats(queue + [d])
  {
    if queue != [] {
      assert (queue + [d])[1..] == queue[1..] + [d];
      Enqueue(queue[1..], d);
    }
  }

  /** The queue holds, once each, the nodes whose count has reached zero and
      that are not yet visited. */
  ghost predicate Queue<T(!new)>(g: Graph<T>, done: set<T>, ready: seq<T>, indegree: map<T, int>)
    requires indegree.Keys == g.Keys
  {
    && NoRepeats(ready)
    && (forall d :: d in ready ==> d in g && d !in done)
    && forall d :: d in g ==> (indegree[d] == 0 <==> d in done || d in ready)
  }

  /** Visited nodes are numbered in the order of their visits, each after all
      its dependencies. */
  ghost predicate Numbered<T(!new)>(g: Graph<T>, rank: map<T, int>) {
    && rank.Keys <= g.Keys
    && (forall d :: d in rank ==> rank[d] < |rank|)
    && forall d, u :: d in rank && u in g[d] ==> u in rank && rank[u] < rank[d]
  }

  ghost predicate Visiting<T(!new)>(g: Graph<T>, rank: map<T, int>, ready: seq<T>, indegree: map<T, int>) {
    Numbered(g, rank) && Counts(g, rank.Keys, [], indegree) && Queue(g, rank.Keys, ready, indegree)
  }

  lemma Dequeue<T(!new)>(g: Graph<T>, rank: map<T, int>, queue: seq<T>, indegree: map<T, int>)
    requires Visiting(g, rank, queue, indegree) && queue != []
    ensures queue[0] in g && queue[0] !in rank && g[queue[0]] <= rank.Keys
    ensures Queue(g, rank.Keys + {queue[0]}, queue[1..], indegree)
  {
    var current, rest := queue[0], queue[1..];
    assert queue == [current] + rest;
    assert current in queue;
    assert Count(g, rank.Keys, [], indegree, current);
    var left := g[current] - rank.Keys;
    assert left == {};
    forall u | u in g[current]
      ensures u in rank.Keys
    {
      assert u !in left;
    }
  }

  lemma DependentWaits<T(!new)>(g: Graph<T>, done: set<T>, current: T, d: T)
    requires d in g && current in g[d] && current !in done
    ensures Unvisited(g, done, d) > 0
    ensures Unvisited(g, done + {current}, d) == Unvisited(g, done, d) - 1
  {
    assert current in g[d] - done;
    assert g[d] - (done + {current}) == (g[d] - done) - {current};
  }

  lemma DecrementStep<T(!new)>(g: Graph<T>, done: set<T>, current: T, seen: seq<T>, d: T, ready: seq<T>, indegree: map<T, int>)
    requires d in g && current in g[d] && current !in done && d !in seen
    requires Counts(g, done, seen, indegree)
    requires Queue(g, done + {current}, ready, indegree)
    ensures var indegree' := indegree[d := indegree[d] - 1];
            Counts(g, done, seen + [d], indegree')
            && Queue(g, done + {current}, if indegree'[d] == 0 then ready + [d] else ready, indegree')
  {
    assert Count(g, done, seen, indegree, d);
    DependentWaits(g, done, current, d);
    var indegree' := indegree[d := indegree[d] - 1];
    forall e | e in g
      ensures Count(g, done, seen + [d], indegree', e)
    {
      assert Count(g, done, seen, indegree, e);
    }
    if d !in ready {
      Enqueue(ready, d);
    }
  }

  lemma Visited<T(!new)>(g: Graph<T>, rank: map<T, int>, current: T, list: seq<T>, ready: seq<T>, indegree: map<T, int>)
    requires Numbered(g, rank) && current in g && current !in rank && g[current] <= rank.Keys
    requires ReversesAt(g, current, list)
    requires Counts(g, rank.Keys, list, indegree)
    requires Queue(g, rank.Keys + {current}, ready, indegree)
    ensures Visiting(g, rank[current := |rank|], ready, indegree)
  {
    var rank' := rank[current := |rank|];
    NumberedStep(g, rank, current);
    assert rank'.Keys == rank.Keys + {current};
    forall d | d in g
      ensures Count(g, rank'.Keys, [], indegree, d)
    {
      assert Count(g, rank.Keys, list, indegree, d);
      if current in g[d] {
        DependentWaits(g, rank.Keys, current, d);
      } else {
        assert g[d] - rank'.Keys == g[d] - rank.Keys;
      }
    }
  }

  lemma NumberedStep<T(!new)>(g: Graph<T>, rank: map<T, int>, current: T)
    requires Numbered(g, rank) && current in g && current !in rank && g[current] <= rank.Keys
    ensures Numbered(g, rank[current := |rank|])
  {
    assert rank[current := |rank|].Keys == rank.Keys + {current};
  }

  /** Visit one node: decrement its dependents and enqueue those that reach 0. */
  method Visit<T(==, !new)>(g: Graph<T>, ghost rank: map<T, int>, queue: seq<T>, counts: map<T, int>, dependents: map<T, seq<T>>)
    returns (ready: seq<T>, indegree: map<T, int>)
    requires Reverses(g, dependents) && Visiting(g, rank, queue, counts) && queue != []
    ensures queue[0] !in rank && Visiting(g, rank[queue[0] := |rank|], ready, indegree)
  {
    var current := queue[0];
    ready, indegree := queue[1..], counts;
    Dequeue(g, rank, queue, counts);
    var list := dependents[current];
    assert ReversesAt(g, current, list);
    for j := 0 to |list|
      invariant Counts(g, rank.Keys, list[..j], indegree)
      invariant Queue(g, rank.Keys + {current}, ready, indegree)
    {
      var dependent := list[j];
      assert dependent in list;
      assert list[..j + 1] == list[..j] + [dependent];
      DecrementStep(g, rank.Keys, current, list[..j], dependent, ready, indegree);
      indegree := indegree[dependent := indegree[dependent] - 1];
      if indegree[dependent] == 0 {
        ready := ready + [dependent];
      }
    }
    assert list[..|list|] == list;
    Visited(g, rank, current, list, ready, indegree);
  }

  lemma LeftOverIsStuck<T(!new)>(g: Graph<T>, rank: map<T, int>, indegree: map<T, int>)
    requires Closed(g) && Visiting(g, rank, [], indegree) && rank.Keys != g.Keys
    ensures !Acyclic(g)
  {
    var stuck := g.Keys - rank.Keys;
    var first :| first in g.Keys && first !in rank.Keys;
    assert first in stuck;
    forall d | d in stuck
      ensures DependsInside(g, stuck, d)
    {
      assert Count(g, rank.Keys, [], indegree, d);
      assert indegree[d] != 0;
      var u :| u in g[d] - rank.Keys;
      assert u in g;
    }
    StuckHasCycle(g, stuck);
  }

  lemma Remaining<T(!new)>(g: Graph<T>, rank: map<T, int>, current: T)
    requires rank.Keys <= g.Keys && current in g && current !in rank
    ensures |rank| < |g| && |rank[current := 0].Keys| == |rank| + 1
  {
    assert rank[current := 0].Keys == rank.Keys + {current};
    SubsetSize(rank.Keys + {current}, g.Keys);
  }

  lemma StartQueue<T(!new)>(g: Graph<T>, nodes: seq<T>, ready: seq<T>, indegree: map<T, int>)
    requires Elements(nodes) == g.Keys && indegree.Keys == g.Keys
    requires NoRepeats(ready) && forall d :: d in ready <==> d in nodes && d in indegree && indegree[d] == 0
    ensures Queue(g, {}, ready, indegree)
  {
    forall d | d in nodes
      ensures d in g
    {
      assert d in Elements(nodes);
    }
    forall d | d in g
      ensures d in nodes
    {
      assert d in Elements(nodes);
    }
  }

  /** The loop visits every node exactly when the graph has no cycle. */
  method VisitAll<T(==, !new)>(g: Graph<T>, nodes: seq<T>, counts: map<T, int>, dependents: map<T, seq<T>>)
    returns (visited: nat)
    requires Closed(g) && Distinct(nodes) && Elements(nodes) == g.Keys
    requires Counts(g, {}, [], counts) && Reverses(g, dependents)
    ensures visited <= |nodes|
    ensures visited == |nodes| <==> Acyclic(g)
  {
    DistinctSize(nodes);
    var indegree := counts;
    var ready: seq<T> := [];
    for i := 0 to |nodes|
      invariant NoRepeats(ready) && forall d :: d in ready <==> d in nodes[..i] && d in indegree && indegree[d] == 0
    {
      assert nodes[..i + 1] == nodes[..i] + [nodes[i]];
      assert nodes[i] in Elements(nodes);
      assert nodes[i] !in nodes[..i];
      if indegree[nodes[i]] == 0 {
        Enqueue(ready, nodes[i]);
        ready := ready + [nodes[i]];
      }
    }
    assert nodes[..|nodes|] == nodes;
    StartQueue(g, nodes, ready, indegree);
    ghost var rank: map<T, int> := map[];
    assert rank.Keys == {};
    visited := 0;
    while ready != []
      invariant Visiting(g, rank, ready, indegree)
      invariant visited == |rank| <= |g|
      decreases |g| - visited
    {
      ghost var current := ready[0];
      assert current in ready;
      Remaining(g, rank, current);
      ready, indegree := Visit(g, rank, ready, indegree, dependents);
      rank := rank[current := |rank|];
      visited := visited + 1;
    }
    SubsetSize(rank.Keys, g.Keys);
    if rank.Keys == g.Keys {
      RankedIsAcyclic(g, rank);
    } else {
      LeftOverIsStuck(g, rank, indegree);
    }
  }
}
