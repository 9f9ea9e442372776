/** Finite dependency graphs: cycles, and why a stuck topological sort has one. */
module Graphs {
  import opened Collections

  /** Each node with the nodes it depends on. */
  type Graph<!T(==)> = map<T, set<T>>

  ghost predicate Closed<T(!new)>(g: Graph<T>) {
    forall d, u :: d in g && u in g[d] ==> u in g
  }

  /** Consecutive nodes of a walk depend on each other. */
  ghost predicate Walk<T(!new)>(g: Graph<T>, p: seq<T>) {
    && (forall i :: 0 <= i < |p| ==> p[i] in g)
    && forall i, j :: 0 <= i && j == i + 1 < |p| ==> p[j] in g[p[i]]
  }

  ghost predicate Cycle<T(!new)>(g: Graph<T>, p: seq<T>) {
    |p| > 1 && Walk(g, p) && p[0] == p[|p| - 1]
  }

  ghost predicate Acyclic<T(!new)>(g: Graph<T>) {
    forall p :: !Cycle(g, p)
  }

  ghost function Elements<T>(s: seq<T>): set<T> {
    set x | x in s
  }

  lemma {:induction false} DistinctSize<T>(s: seq<T>)
    requires Distinct(s)
    ensures |Elements(s)| == |s|
  {
    if s != [] {
      var n := |s| - 1;
      DistinctSize(s[..n]);
      assert Elements(s) == Elements(s[..n]) + {s[n]};
    }
  }

  // ----- an order rules cycles out -----

  /** Every dependency has a smaller rank. */
  ghost predicate Ranked<T(!new)>(g: Graph<T>, rank: map<T, int>) {
    && rank.Keys == g.Keys
    && forall d, u :: d in g && u in g[d] ==> u in rank && rank[u] < rank[d]
  }

  lemma {:induction false} RankFalls<T(!new)>(g: Graph<T>, rank: map<T, int>, p: seq<T>)
    requires Ranked(g, rank) && Walk(g, p) && |p| > 1
    ensures rank[p[|p| - 1]] < rank[p[0]]
  {
    var front := p[..|p| - 1];
    assert p[|p| - 1] in g[p[|p| - 2]];
    if |p| > 2 {
      assert Walk(g, front);
      RankFalls(g, rank, front);
    }
  }

  lemma RankedIsAcyclic<T(!new)>(g: Graph<T>, rank: map<T, int>)
    requires Ranked(g, rank)
    ensures Acyclic(g)
  {
    forall p | Walk(g, p) && |p| > 1
      ensures p[0] != p[|p| - 1]
    {
      RankFalls(g, rank, p);
    }
  }

  // ----- a set without a first node has a cycle -----

  /** Nobody in `stuck` has all dependencies outside it. */
  ghost predicate Stuck<T(!new)>(g: Graph<T>, stuck: set<T>) {
    && stuck != {} && stuck <= g.Keys
    && forall d {:trigger DependsInside(g, stuck, d)} :: d in stuck ==> DependsInside(g, stuck, d)
  }

  ghost predicate DependsInside<T(!new)>(g: Graph<T>, stuck: set<T>, d: T) {
    d in g && exists u :: u in g[d] && u in stuck
  }

  lemma {:induction false} LongWalk<T(!new)>(g: Graph<T>, stuck: set<T>, n: nat) returns (p: seq<T>)
    requires Stuck(g, stuck)
    ensures |p| == n + 1 && Walk(g, p) && forall x :: x in p ==> x in stuck
  {
    if n == 0 {
      var d :| d in stuck;
      p := [d];
    } else {
      var shorter := LongWalk(g, stuck, n - 1);
      assert shorter[n - 1] in stuck;
      assert DependsInside(g, stuck, shorter[n - 1]);
      var u :| u in g[shorter[n - 1]] && u in stuck;
      p := shorter + [u];
    }
  }

  lemma {:induction false} Repeats<T(!new)>(s: seq<T>, limit: set<T>) returns (i: nat, j: nat)
    requires |s| > |limit| && forall x :: x in s ==> x in limit
    ensures i < j < |s| && s[i] == s[j]
  {
    assert Elements(s) <= limit;
    SubsetSize(Elements(s), limit);
    if Distinct(s) {
      DistinctSize(s);
    }
    i, j :| 0 <= i < j < |s| && s[i] == s[j];
  }

  lemma StuckHasCycle<T(!new)>(g: Graph<T>, stuck: set<T>)
    requires Stuck(g, stuck)
    ensures !Acyclic(g)
  {
    var p := LongWalk(g, stuck, |stuck|);
    var i, j := Repeats(p, stuck);
    assert Cycle(g, p[i..j + 1]);
  }
}
