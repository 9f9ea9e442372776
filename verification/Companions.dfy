/** The closure of an action under required companions. */
module Companions {
  import opened Ordering

  /** Each declared action with its direct required companions. */
  type CompanionMap = map<string, seq<string>>

  /** Every companion is itself declared. */
  ghost predicate Resolved(direct: CompanionMap) {
    forall a, b :: a in direct && b in direct[a] ==> b in direct
  }

  /** A walk along companion edges. */
  ghost predicate Walk(direct: CompanionMap, p: seq<string>) {
    && (forall i :: 0 <= i < |p| ==> p[i] in direct)
    && forall i, j :: 0 <= i && j == i + 1 < |p| ==> p[j] in direct[p[i]]
  }

  /** `b` is reached from `a` by one or more edges. */
  ghost predicate Reaches(direct: CompanionMap, a: string, b: string) {
    exists p :: |p| > 1 && Walk(direct, p) && p[0] == a && p[|p| - 1] == b
  }

  lemma ReachesDirect(direct: CompanionMap, a: string, b: string)
    requires Resolved(direct) && a in direct && b in direct[a]
    ensures Reaches(direct, a, b)
  {
    assert Walk(direct, [a, b]);
  }

  lemma ReachesFurther(direct: CompanionMap, a: string, b: string, c: string)
    requires Resolved(direct) && Reaches(direct, a, b) && b in direct && c in direct[b]
    ensures Reaches(direct, a, c)
  {
    var p :| |p| > 1 && Walk(direct, p) && p[0] == a && p[|p| - 1] == b;
    var q := p + [c];
    assert Walk(direct, q);
    assert q[0] == a && q[|q| - 1] == c;
  }

  /** `s` contains the companions of all its members. */
  ghost predicate Closed(direct: CompanionMap, s: set<string>) {
    forall a, b :: a in s && a in direct && b in direct[a] ==> b in s
  }

  lemma {:induction false} WalkStays(direct: CompanionMap, s: set<string>, p: seq<string>)
    requires Closed(direct, s) && Walk(direct, p) && p != [] && p[0] in s
    ensures p[|p| - 1] in s
  {
    if |p| > 1 {
      var front := p[..|p| - 1];
      assert Walk(direct, front);
      WalkStays(direct, s, front);
      assert p[|p| - 1] in direct[p[|p| - 2]];
    }
  }

  /** What `companion_closure` is to return: every action reached from `a`,
      other than `a`, in ascending order. */
  ghost predicate IsClosure(direct: CompanionMap, a: string, ordered: seq<string>) {
    Ascending(ordered) && forall b :: b in ordered <==> b != a && Reaches(direct, a, b)
  }

  lemma ClosureUnique(direct: CompanionMap, a: string, x: seq<string>, y: seq<string>)
    requires IsClosure(direct, a, x) && IsClosure(direct, a, y)
    ensures x == y
  {
    forall b
      ensures b in x <==> b in y
    {
      assert b in x <==> b != a && Reaches(direct, a, b);
    }
    AscendingUnique(x, y);
  }

  /** What the draining loop keeps: everything found or pending is reached, and
      companions of what has been found are found or pending. */
  ghost predicate Draining(direct: CompanionMap, a: string, closure: set<string>, pending: seq<string>) {
    && a in direct && closure <= direct.Keys - {a}
    && (forall b :: b in closure ==> Reaches(direct, a, b))
    && (forall b :: b in pending ==> b in direct && Reaches(direct, a, b))
    && forall b, c :: (b == a || b in closure) && b in direct && c in direct[b] ==> c == a || c in closure || c in pending
  }

  lemma DrainSkip(direct: CompanionMap, a: string, closure: set<string>, pending: seq<string>)
    requires Draining(direct, a, closure, pending) && pending != []
    requires pending[|pending| - 1] == a || pending[|pending| - 1] in closure
    ensures Draining(direct, a, closure, pending[..|pending| - 1])
  {
    assert pending == pending[..|pending| - 1] + [pending[|pending| - 1]];
  }

  lemma DrainAdd(direct: CompanionMap, a: string, closure: set<string>, pending: seq<string>)
    requires Resolved(direct) && Draining(direct, a, closure, pending) && pending != []
    requires pending[|pending| - 1] != a
    ensures var b := pending[|pending| - 1];
            b in direct && Draining(direct, a, closure + {b}, pending[..|pending| - 1] + direct[b])
  {
    var front, b := pending[..|pending| - 1], pending[|pending| - 1];
    assert pending == front + [b];
    forall c | c in direct[b]
      ensures Reaches(direct, a, c)
    {
      ReachesFurther(direct, a, b, c);
    }
  }

  lemma Drained(direct: CompanionMap, a: string, closure: set<string>)
    requires Draining(direct, a, closure, [])
    ensures forall b :: b in closure <==> b != a && Reaches(direct, a, b)
  {
    forall b | b != a && Reaches(direct, a, b)
      ensures b in closure
    {
      var p :| |p| > 1 && Walk(direct, p) && p[0] == a && p[|p| - 1] == b;
      WalkStays(direct, closure + {a}, p);
    }
  }

  /** The closure function and the cache it shares between calls. */
  class ClosureIndex {
    const direct: CompanionMap
    var cache: map<string, seq<string>>

    ghost predicate Valid()
      reads this
    {
      Resolved(direct) && forall a :: a in cache ==> IsClosure(direct, a, cache[a])
    }

    constructor (direct: CompanionMap)
      requires Resolved(direct)
      ensures Valid() && this.direct == direct && cache == map[]
    {
      this.direct := direct;
      cache := map[];
    }

    /** Terminates on cyclic companion graphs: every pass either finds a new
        action or shortens the stack. */
    method CompanionClosure(actionId: string) returns (ordered: seq<string>)
      requires Valid() && actionId in direct
      modifies this`cache
      ensures Valid() && IsClosure(direct, actionId, ordered)
      ensures cache == old(cache)[actionId := ordered]
    {
      if actionId in cache {
        assert cache == cache[actionId := cache[actionId]];
        return cache[actionId];
      }
      var closure: set<string> := {};
      var pending := direct[actionId];
      forall b | b in pending
        ensures Reaches(direct, actionId, b)
      {
        ReachesDirect(direct, actionId, b);
      }
      while pending != []
        invariant Draining(direct, actionId, closure, pending)
        invariant cache == old(cache)
        decreases direct.Keys - closure, |pending|
      {
        var companion := pending[|pending| - 1];
        if companion == actionId || companion in closure {
          DrainSkip(direct, actionId, closure, pending);
          pending := pending[..|pending| - 1];
        } else {
          DrainAdd(direct, actionId, closure, pending);
          closure := closure + {companion};
          pending := pending[..|pending| - 1] + direct[companion];
        }
      }
      Drained(direct, actionId, closure);
      ordered := SortedSet(closure);
      cache := cache[actionId := ordered];
    }
  }

  /** A request contains the whole closure of each requested action exactly
      when it contains each requested action's direct companions. */
  lemma ClosedByDirectCompanions(direct: CompanionMap, requested: set<string>)
    requires Resolved(direct) && requested <= direct.Keys
    ensures (forall a, b :: a in requested && b in direct[a] ==> b in requested)
       <==> (forall a, b :: a in requested && b != a && Reaches(direct, a, b) ==> b in requested)
  {
    if forall a, b :: a in requested && b in direct[a] ==> b in requested {
      forall a, b | a in requested && Reaches(direct, a, b)
        ensures b in requested
      {
        var p :| |p| > 1 && Walk(direct, p) && p[0] == a && p[|p| - 1] == b;
        WalkStays(direct, requested, p);
      }
    }
    if forall a, b :: a in requested && b != a && Reaches(direct, a, b) ==> b in requested {
      forall a, b | a in requested && b in direct[a]
        ensures b in requested
      {
        ReachesDirect(direct, a, b);
      }
    }
  }
}
