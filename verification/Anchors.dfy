/** Generated heading anchors: the suffix search, one file at a time and across
    the aggregate.  A heading is given by the slug of its title. */
module Anchors {
  import opened Collections
  import opened Wrappers
  import opened Text

  // ----- candidates -----

  /** base, base-1, base-2, ... */
  function Candidate(base: string, suffix: nat): string {
    if suffix == 0 then base else base + "-" + Decimal(suffix)
  }

  lemma CandidatesDiffer(base: string, i: nat, j: nat)
    requires Candidate(base, i) == Candidate(base, j)
    ensures i == j
  {
    if i > 0 && j > 0 {
      var n := |base| + 1;
      assert Decimal(i) == Candidate(base, i)[n..] == Candidate(base, j)[n..] == Decimal(j);
      DecimalInjective(i, j);
    }
  }

  ghost function Tried(base: string, n: nat): set<string> {
    if n == 0 then {} else Tried(base, n - 1) + {Candidate(base, n - 1)}
  }

  lemma {:induction false} TriedSize(base: string, n: nat)
    ensures |Tried(base, n)| == n
  {
    if n > 0 {
      TriedSize(base, n - 1);
      NotTried(base, n - 1, n - 1);
    }
  }

  lemma {:induction false} NotTried(base: string, n: nat, suffix: nat)
    requires n <= suffix
    ensures Candidate(base, suffix) !in Tried(base, n)
  {
    if n > 0 {
      NotTried(base, n - 1, suffix);
      if Candidate(base, n - 1) == Candidate(base, suffix) {
        CandidatesDiffer(base, n - 1, suffix);
      }
    }
  }

  /** The first n candidates cannot all be taken when n exceeds the names in use. */
  lemma SuffixBound(base: string, used: set<string>, n: nat)
    requires Tried(base, n) <= used
    ensures n <= |used|
  {
    TriedSize(base, n);
    SubsetSize(Tried(base, n), used);
  }

  /** The search from candidate `n` on; it ends for every set of names in use. */
  function Free(base: string, used: set<string>, n: nat := 0): (anchor: string)
    requires Tried(base, n) <= used
    ensures anchor !in used
    ensures exists suffix: nat :: suffix >= n && anchor == Candidate(base, suffix) && Tried(base, suffix) <= used
    decreases |used| + 1 - n
  {
    SuffixBound(base, used, n);
    if Candidate(base, n) !in used then Candidate(base, n) else
    assert Tried(base, n + 1) <= used;
    SuffixBound(base, used, n + 1);
    Free(base, used, n + 1)
  }

  /** The inner loop. */
  method FreeAnchor(base: string, used: set<string>) returns (anchor: string)
    ensures anchor == Free(base, used)
  {
    anchor := base;
    var suffix: nat := 0;
    SuffixBound(base, used, 0);
    while anchor in used
      invariant anchor == Candidate(base, suffix)
      invariant Tried(base, suffix) <= used && suffix <= |used|
      invariant Free(base, used) == Free(base, used, suffix)
      decreases |used| - suffix
    {
      assert Tried(base, suffix + 1) <= used;
      SuffixBound(base, used, suffix + 1);
      suffix := suffix + 1;
      anchor := base + "-" + Decimal(suffix);
    }
  }

  // ----- one file -----

  ghost function Taken(anchors: seq<string>): set<string> {
    set i | 0 <= i < |anchors| :: anchors[i]
  }

  /** Headings in order, each given the first candidate not yet in use. */
  ghost function Allocate(bases: seq<string>, used: set<string>): (anchors: seq<string>)
    ensures |anchors| == |bases|
  {
    if bases == [] then [] else
    var anchor := Free(bases[0], used);
    [anchor] + Allocate(bases[1..], used + {anchor})
  }

  lemma TakenConcat(a: seq<string>, b: seq<string>)
    ensures Taken(a + b) == Taken(a) + Taken(b)
  {
    forall x | x in Taken(a) + Taken(b)
      ensures x in Taken(a + b)
    {
      if x in Taken(a) {
        var i :| 0 <= i < |a| && a[i] == x;
        assert (a + b)[i] == x;
      } else {
        var i :| 0 <= i < |b| && b[i] == x;
        assert (a + b)[|a| + i] == x;
      }
    }
  }

  lemma TakenOne(anchor: string)
    ensures Taken([anchor]) == {anchor}
  {
    assert [anchor][0] in Taken([anchor]);
  }

  /** No two headings share an anchor, and none takes a name already in use. */
  lemma {:induction false} AllocateDistinct(bases: seq<string>, used: set<string>)
    ensures Distinct(Allocate(bases, used)) && Taken(Allocate(bases, used)) !! used
  {
    if bases != [] {
      var anchor := Free(bases[0], used);
      var rest := Allocate(bases[1..], used + {anchor});
      AllocateDistinct(bases[1..], used + {anchor});
      TakenConcat([anchor], rest);
      TakenOne(anchor);
      forall j | 0 <= j < |rest|
        ensures rest[j] != anchor
      {
        assert rest[j] in Taken(rest);
      }
    }
  }

  /** Allocating in two goes is allocating once over all headings. */
  lemma {:induction false} AllocateConcat(a: seq<string>, b: seq<string>, used: set<string>)
    ensures Allocate(a + b, used) == Allocate(a, used) + Allocate(b, used + Taken(Allocate(a, used)))
  {
    if a == [] {
      assert a + b == b;
      assert used + Taken([]) == used;
    } else {
      var anchor := Free(a[0], used);
      assert (a + b)[1..] == a[1..] + b && (a + b)[0] == a[0];
      AllocateConcat(a[1..], b, used + {anchor});
      TakenCons(anchor, Allocate(a[1..], used + {anchor}), used);
    }
  }

  lemma TakenCons(anchor: string, rest: seq<string>, used: set<string>)
    ensures used + {anchor} + Taken(rest) == used + Taken([anchor] + rest)
  {
    TakenConcat([anchor], rest);
    TakenOne(anchor);
  }

  lemma AllocateSnoc(bases: seq<string>, base: string, used: set<string>)
    ensures Allocate(bases + [base], used) == Allocate(bases, used) + [Free(base, used + Taken(Allocate(bases, used)))]
  {
    AllocateConcat(bases, [base], used);
    var used' := used + Taken(Allocate(bases, used));
    assert [base][1..] == [];
    assert Allocate([base], used') == [Free(base, used')];
  }

  /** `markdown_heading_anchor_ids` */
  method HeadingAnchors(bases: seq<string>) returns (anchors: seq<string>)
    ensures anchors == Allocate(bases, {})
  {
    anchors := [];
    var used: set<string> := {};
    for i := 0 to |bases|
      invariant anchors == Allocate(bases[..i], {})
      invariant used == Taken(anchors)
    {
      var candidate := FreeAnchor(bases[i], used);
      AllocateNext(bases, i);
      TakenSnoc(anchors, candidate);
      used := used + {candidate};
      anchors := anchors + [candidate];
    }
    assert bases[..|bases|] == bases;
  }

  lemma AllocateNext(bases: seq<string>, i: nat)
    requires i < |bases|
    ensures Allocate(bases[..i + 1], {}) == Allocate(bases[..i], {}) + [Free(bases[i], Taken(Allocate(bases[..i], {})))]
  {
    assert bases[..i + 1] == bases[..i] + [bases[i]];
    AllocateSnoc(bases[..i], bases[i], {});
    var used := Taken(Allocate(bases[..i], {}));
    assert {} + used == used;
  }

  lemma TakenSnoc(anchors: seq<string>, anchor: string)
    ensures Taken(anchors + [anchor]) == Taken(anchors) + {anchor}
  {
    TakenConcat(anchors, [anchor]);
    TakenOne(anchor);
  }

  // ----- the aggregate -----

  /** A Markdown source: its explicit HTML anchors and its heading slugs. */
  datatype Source = Source(path: string, explicit: seq<string>, headings: seq<string>)

  function AllHeadings(sources: seq<Source>): seq<string> {
    if sources == [] then [] else AllHeadings(sources[..|sources| - 1]) + sources[|sources| - 1].headings
  }

  function AllExplicit(sources: seq<Source>): seq<string> {
    if sources == [] then [] else AllExplicit(sources[..|sources| - 1]) + sources[|sources| - 1].explicit
  }

  /** The anchors of the document that all sources form together. */
  ghost function AggregateAnchors(sources: seq<Source>): seq<string> {
    Allocate(AllHeadings(sources), {})
  }

  /** The part of them that belongs to source `i`. */
  ghost function Assigned(sources: seq<Source>, i: nat): (anchors: seq<string>)
    requires i < |sources|
    ensures |anchors| == |sources[i].headings|
  {
    Allocate(sources[i].headings, Taken(AggregateAnchors(sources[..i])))
  }

  /** The aggregate's anchors are the sources' parts in catalog order. */
  lemma AggregateIsConcatenation(sources: seq<Source>, i: nat)
    requires i < |sources|
    ensures AggregateAnchors(sources[..i + 1]) == AggregateAnchors(sources[..i]) + Assigned(sources, i)
  {
    assert sources[..i + 1][..i] == sources[..i];
    AllocateConcat(AllHeadings(sources[..i]), sources[i].headings, {});
    assert {} + Taken(AggregateAnchors(sources[..i])) == Taken(AggregateAnchors(sources[..i]));
  }

  lemma {:induction false} AggregatePrefix(sources: seq<Source>, i: nat)
    requires i <= |sources|
    ensures AggregateAnchors(sources[..i]) <= AggregateAnchors(sources)
    decreases |sources| - i
  {
    if i < |sources| {
      AggregateIsConcatenation(sources, i);
      AggregatePrefix(sources, i + 1);
    } else {
      assert sources[..i] == sources;
    }
  }

  /** Headings of the whole aggregate have different anchors, whichever sources
      they are in. */
  lemma AggregateDistinct(sources: seq<Source>, i: nat, j: nat, h: nat, k: nat)
    requires i <= j < |sources| && h < |sources[i].headings| && k < |sources[j].headings|
    requires i == j ==> h != k
    ensures Assigned(sources, i)[h] != Assigned(sources, j)[k]
  {
    AllocateDistinct(sources[j].headings, Taken(AggregateAnchors(sources[..j])));
    if i < j {
      EarlierIsTaken(sources, i, j, h);
      assert Assigned(sources, j)[k] in Taken(Assigned(sources, j));
    }
  }

  lemma EarlierIsTaken(sources: seq<Source>, i: nat, j: nat, h: nat)
    requires i < j < |sources| && h < |sources[i].headings|
    ensures Assigned(sources, i)[h] in Taken(AggregateAnchors(sources[..j]))
  {
    AggregateIsConcatenation(sources, i);
    var front := sources[..j];
    assert front[..i + 1] == sources[..i + 1];
    AggregatePrefix(front, i + 1);
    assert AggregateAnchors(front)[|AggregateAnchors(sources[..i])| + h] == Assigned(sources, i)[h];
  }

  /** What the map of one source must be after its first `n` headings: each
      heading's own anchor leads to the anchor given to it in the aggregate; an
      explicit anchor that no heading of the source shares stays what it is. */
  ghost predicate HeadingTargets(source: Source, targets: map<string, string>, locals: seq<string>, given: seq<string>, n: nat)
    requires n <= |given| == |locals|
  {
    && targets.Keys == Taken(locals[..n]) + Taken(source.explicit)
    && (forall j :: 0 <= j < n ==> locals[j] in targets && targets[locals[j]] == given[j])
    && forall a :: a in Taken(source.explicit) && a !in Taken(locals[..n]) ==> a in targets && targets[a] == a
  }

  lemma TakenStep(anchors: seq<string>, n: nat)
    requires n < |anchors|
    ensures Taken(anchors[..n + 1]) == Taken(anchors[..n]) + {anchors[n]}
  {
    assert anchors[..n + 1] == anchors[..n] + [anchors[n]];
    TakenConcat(anchors[..n], [anchors[n]]);
    TakenOne(anchors[n]);
  }

  lemma HeadingTargetsStart(source: Source, targets: map<string, string>, locals: seq<string>, given: seq<string>)
    requires |given| == |locals|
    requires targets.Keys == Taken(source.explicit) && forall a :: a in targets ==> targets[a] == a
    ensures HeadingTargets(source, targets, locals, given, 0)
  {}

  lemma HeadingTargetsStep(source: Source, targets: map<string, string>, locals: seq<string>, given: seq<string>, n: nat)
    requires n < |given| == |locals| && Distinct(locals)
    requires HeadingTargets(source, targets, locals, given, n)
    ensures HeadingTargets(source, targets[locals[n] := given[n]], locals, given, n + 1)
  {
    TakenStep(locals, n);
  }

  ghost predicate LocalTargets(source: Source, targets: map<string, string>, given: seq<string>)
    requires |given| == |source.headings|
  {
    HeadingTargets(source, targets, Allocate(source.headings, {}), given, |given|)
  }

  ghost predicate SourceTargets(sources: seq<Source>, i: nat, targets: map<string, map<string, string>>)
    requires i < |sources|
  {
    sources[i].path in targets && LocalTargets(sources[i], targets[sources[i].path], Assigned(sources, i))
  }

  ghost predicate AggregateTargets(sources: seq<Source>, n: nat, targets: map<string, map<string, string>>)
    requires n <= |sources|
  {
    && targets.Keys == (set i | 0 <= i < n :: sources[i].path)
    && forall i :: 0 <= i < n ==> SourceTargets(sources, i, targets)
  }

  ghost predicate DistinctPaths(sources: seq<Source>) {
    forall i, j :: 0 <= i < j < |sources| ==> sources[i].path != sources[j].path
  }

  /** The explicit anchors of one source, refused when one is already owned. */
  method ClaimExplicit(source: Source, owners: map<string, string>)
    returns (r: Option<map<string, string>>, locals: map<string, string>)
    ensures r.Some? <==> Distinct(source.explicit) && Taken(source.explicit) !! owners.Keys
    ensures r.Some? ==> r.value.Keys == owners.Keys + Taken(source.explicit)
    ensures r.Some? ==> locals.Keys == Taken(source.explicit) && forall a :: a in locals ==> locals[a] == a
  {
    var claimed := owners;
    locals := map[];
    for i := 0 to |source.explicit|
      invariant claimed.Keys == owners.Keys + Taken(source.explicit[..i])
      invariant Distinct(source.explicit[..i]) && Taken(source.explicit[..i]) !! owners.Keys
      invariant locals.Keys == Taken(source.explicit[..i])
      invariant forall a :: a in locals ==> locals[a] == a
    {
      var anchor := source.explicit[i];
      assert source.explicit[..i + 1] == source.explicit[..i] + [anchor];
      TakenConcat(source.explicit[..i], [anchor]);
      TakenOne(anchor);
      if anchor in claimed {
        if anchor in owners {
          assert source.explicit[i] in Taken(source.explicit);
        } else {
          var j :| 0 <= j < i && source.explicit[..i][j] == anchor;
          assert source.explicit[j] == source.explicit[i];
        }
        return None, locals;
      }
      forall j | 0 <= j < i
        ensures source.explicit[j] != anchor
      {
        assert source.explicit[..i][j] in Taken(source.explicit[..i]);
      }
      claimed := claimed[anchor := source.path];
      locals := locals[anchor := anchor];
    }
    assert source.explicit[..|source.explicit|] == source.explicit;
    r := Some(claimed);
  }

  /** The heading loop of one source; `used` carries on from earlier sources. */
  method AllocateHeadings(source: Source, start: map<string, string>, used: set<string>)
    returns (targets: map<string, string>, used': set<string>)
    requires start.Keys == Taken(source.explicit) && forall a :: a in start ==> start[a] == a
    ensures used' == used + Taken(Allocate(source.headings, used))
    ensures LocalTargets(source, targets, Allocate(source.headings, used))
  {
    var locals := HeadingAnchors(source.headings);
    AllocateDistinct(source.headings, {});
    ghost var given := Allocate(source.headings, used);
    targets, used' := start, used;
    HeadingTargetsStart(source, start, locals, given);
    for i := 0 to |locals|
      invariant used' == used + Taken(given[..i])
      invariant Allocate(source.headings[..i], used) == given[..i]
      invariant HeadingTargets(source, targets, locals, given, i)
    {
      var anchor := FreeAnchor(source.headings[i], used');
      HeadingStep(source.headings, used, i);
      TakenFurther(given, used, i);
      HeadingTargetsStep(source, targets, locals, given, i);
      targets := targets[locals[i] := anchor];
      used' := used' + {anchor};
    }
    assert given[..|locals|] == given;
  }

  lemma TakenFurther(given: seq<string>, used: set<string>, i: nat)
    requires i < |given|
    ensures used + Taken(given[..i + 1]) == used + Taken(given[..i]) + {given[i]}
  {
    TakenStep(given, i);
  }

  lemma HeadingStep(bases: seq<string>, used: set<string>, i: nat)
    requires i < |bases| && Allocate(bases[..i], used) == Allocate(bases, used)[..i]
    ensures Allocate(bases, used)[i] == Free(bases[i], used + Taken(Allocate(bases, used)[..i]))
    ensures Allocate(bases[..i + 1], used) == Allocate(bases, used)[..i + 1]
  {
    assert bases[..i + 1] == bases[..i] + [bases[i]];
    AllocateSnoc(bases[..i], bases[i], used);
    assert bases == bases[..i + 1] + bases[i + 1..];
    AllocateConcat(bases[..i + 1], bases[i + 1..], used);
  }

  /** `aggregate_fragment_targets`: None where a duplicate explicit anchor is
      reported. */
  method AggregateFragmentTargets(sources: seq<Source>) returns (r: Option<map<string, map<string, string>>>)
    requires DistinctPaths(sources)
    ensures r.Some? <==> Distinct(AllExplicit(sources))
    ensures r.Some? ==> AggregateTargets(sources, |sources|, r.value)
  {
    var targets: map<string, map<string, string>> := map[];
    var used: set<string> := {};
    var owners: map<string, string> := map[];
    for i := 0 to |sources|
      invariant AggregateTargets(sources, i, targets)
      invariant used == Taken(AggregateAnchors(sources[..i]))
      invariant Distinct(AllExplicit(sources[..i])) && owners.Keys == Taken(AllExplicit(sources[..i]))
    {
      var source := sources[i];
      assert sources[..i + 1][..i] == sources[..i];
      var claimed, start := ClaimExplicit(source, owners);
      ExplicitStep(AllExplicit(sources[..i]), source.explicit);
      if claimed.None? {
        ExplicitPrefix(sources, i + 1);
        return None;
      }
      owners := claimed.value;
      AggregateIsConcatenation(sources, i);
      TakenConcat(AggregateAnchors(sources[..i]), Assigned(sources, i));
      var local;
      local, used := AllocateHeadings(source, start, used);
      TargetsStep(sources, i, targets, local);
      targets := targets[source.path := local];
    }
    assert sources[..|sources|] == sources;
    r := Some(targets);
  }

  lemma TargetsStep(sources: seq<Source>, n: nat, targets: map<string, map<string, string>>, local: map<string, string>)
    requires DistinctPaths(sources) && n < |sources| && AggregateTargets(sources, n, targets)
    requires LocalTargets(sources[n], local, Assigned(sources, n))
    ensures AggregateTargets(sources, n + 1, targets[sources[n].path := local])
  {
    var more := targets[sources[n].path := local];
    forall i | 0 <= i < n + 1
      ensures SourceTargets(sources, i, more)
    {
      assert i < n ==> SourceTargets(sources, i, targets);
    }
  }

  lemma ExplicitStep(a: seq<string>, b: seq<string>)
    requires Distinct(a)
    ensures Distinct(a + b) <==> Distinct(b) && Taken(b) !! Taken(a)
    ensures Taken(a + b) == Taken(a) + Taken(b)
  {
    TakenConcat(a, b);
    if Distinct(a + b) {
      forall i, j | 0 <= i < j < |b|
        ensures b[i] != b[j]
      {
        assert (a + b)[|a| + i] != (a + b)[|a| + j];
      }
      forall x | x in Taken(a)
        ensures x !in Taken(b)
      {
        var i :| 0 <= i < |a| && a[i] == x;
        forall j | 0 <= j < |b|
          ensures b[j] != x
        {
          assert (a + b)[i] != (a + b)[|a| + j];
        }
      }
    }
    if Distinct(b) && Taken(b) !! Taken(a) {
      forall i, j | 0 <= i < j < |a + b|
        ensures (a + b)[i] != (a + b)[j]
      {
        if i < |a| && j >= |a| {
          assert a[i] in Taken(a) && b[j - |a|] in Taken(b);
        }
      }
    }
  }

  lemma {:induction false} ExplicitPrefix(sources: seq<Source>, n: nat)
    requires n <= |sources| && !Distinct(AllExplicit(sources[..n]))
    ensures !Distinct(AllExplicit(sources))
    decreases |sources| - n
  {
    if n < |sources| {
      assert sources[..n + 1][..n] == sources[..n];
      var front, more := AllExplicit(sources[..n]), sources[n].explicit;
      var i, j :| 0 <= i < j < |front| && front[i] == front[j];
      assert (front + more)[i] == (front + more)[j];
      ExplicitPrefix(sources, n + 1);
    } else {
      assert sources[..n] == sources;
    }
  }

  /** In the first source every anchor, explicit or generated, is kept. */
  lemma FirstSourceUnchanged(sources: seq<Source>, targets: map<string, map<string, string>>, a: string)
    requires sources != [] && AggregateTargets(sources, |sources|, targets)
    requires sources[0].path in targets && a in targets[sources[0].path]
    ensures targets[sources[0].path][a] == a
  {
    var locals := Allocate(sources[0].headings, {});
    assert sources[..0] == [] && Taken(AggregateAnchors([])) == {};
    assert Assigned(sources, 0) == locals && locals[..|locals|] == locals;
    assert SourceTargets(sources, 0, targets);
    if a in Taken(locals) {
      var j :| 0 <= j < |locals| && locals[j] == a;
    }
  }

  /** None of these anchors is one of these names. */
  ghost predicate Clear(anchors: seq<string>, names: set<string>) {
    forall h :: 0 <= h < |anchors| ==> anchors[h] !in names
  }

  lemma ClearTaken(anchors: seq<string>, names: set<string>)
    ensures Clear(anchors, names) <==> Taken(anchors) !! names
  {
    if Clear(anchors, names) {
      forall a | a in Taken(anchors)
        ensures a !in names
      {
        var h :| 0 <= h < |anchors| && anchors[h] == a;
      }
    } else {
      var h :| 0 <= h < |anchors| && anchors[h] in names;
      assert anchors[h] in Taken(anchors);
    }
  }

  lemma ClearConcat(a: seq<string>, b: seq<string>, names: set<string>)
    ensures Clear(a + b, names) <==> Clear(a, names) && Clear(b, names)
  {
    ClearTaken(a, names);
    ClearTaken(b, names);
    ClearTaken(a + b, names);
    TakenConcat(a, b);
  }

  /** What the first `n` sources are assigned is clear of some names. */
  ghost predicate AssignedClear(sources: seq<Source>, n: nat, names: set<string>)
    requires n <= |sources|
  {
    forall i :: 0 <= i < n ==> Clear(Assigned(sources, i), names)
  }

  lemma AssignedClearStep(sources: seq<Source>, n: nat, names: set<string>, before: seq<string>, all: seq<string>)
    requires n < |sources| && all == before + Assigned(sources, n)
    requires AssignedClear(sources, n, names) <==> Clear(before, names)
    ensures AssignedClear(sources, n + 1, names) <==> Clear(all, names)
  {
    var mine := Assigned(sources, n);
    ClearConcat(before, mine, names);
    assert AssignedClear(sources, n + 1, names) <==> AssignedClear(sources, n, names) && Clear(mine, names);
  }

  /** The aggregate's anchors are exactly those assigned to its sources. */
  lemma AssignedIsAggregate(sources: seq<Source>, names: set<string>)
    ensures AssignedClear(sources, |sources|, names) <==> Clear(AggregateAnchors(sources), names)
  {
    var all: seq<string> := [];
    assert sources[..0] == [];
    for n := 0 to |sources|
      invariant all == AggregateAnchors(sources[..n])
      invariant AssignedClear(sources, n, names) <==> Clear(all, names)
    {
      AggregateIsConcatenation(sources, n);
      AssignedClearStep(sources, n, names, all, all + Assigned(sources, n));
      all := all + Assigned(sources, n);
    }
    assert sources[..|sources|] == sources;
  }

  /** No heading of any source is given an explicit anchor exactly when the
      single-file allocator over all headings gives out none. */
  lemma HeadingsAvoidExplicit(sources: seq<Source>)
    ensures (forall i :: 0 <= i < |sources| ==> Clear(Assigned(sources, i), Taken(AllExplicit(sources))))
       <==> Taken(AllExplicit(sources)) !! Taken(Allocate(AllHeadings(sources), {}))
  {
    AssignedIsAggregate(sources, Taken(AllExplicit(sources)));
    ClearTaken(AggregateAnchors(sources), Taken(AllExplicit(sources)));
  }

  /** Every slug is itself an anchor, unless it was in use. */
  lemma {:induction false} SlugsAreTaken(bases: seq<string>, used: set<string>)
    ensures Taken(bases) <= used + Taken(Allocate(bases, used))
  {
    if bases != [] {
      var anchor := Free(bases[0], used);
      var rest := Allocate(bases[1..], used + {anchor});
      SlugsAreTaken(bases[1..], used + {anchor});
      assert bases == [bases[0]] + bases[1..];
      TakenConcat([bases[0]], bases[1..]);
      TakenOne(bases[0]);
      TakenConcat([anchor], rest);
      TakenOne(anchor);
    }
  }

  /** Different slugs that are not in use are the anchors. */
  lemma {:induction false} DifferentSlugsAreKept(bases: seq<string>, used: set<string>)
    requires Distinct(bases) && Taken(bases) !! used
    ensures Allocate(bases, used) == bases
  {
    if bases != [] {
      assert bases == [bases[0]] + bases[1..];
      TakenConcat([bases[0]], bases[1..]);
      TakenOne(bases[0]);
      FirstIsNew(bases);
      assert Free(bases[0], used) == Candidate(bases[0], 0) == bases[0];
      DifferentSlugsAreKept(bases[1..], used + {bases[0]});
    }
  }

  lemma FirstIsNew(s: seq<string>)
    requires s != [] && Distinct(s)
    ensures Distinct(s[1..]) && s[0] !in Taken(s[1..])
  {
    forall i | 0 <= i < |s[1..]|
      ensures s[1..][i] != s[0]
    {
      assert s[1..][i] == s[i + 1];
    }
  }

  /** Each anchor is its slug with a number that is no greater than the number of
      names in use. */
  lemma {:induction false} AnchorsAreCandidates(bases: seq<string>, used: set<string>, h: nat)
    requires h < |bases|
    ensures exists n: nat :: n <= |used| + h && Allocate(bases, used)[h] == Candidate(bases[h], n)
  {
    var anchor := Free(bases[0], used);
    if h == 0 {
      var n: nat :| anchor == Candidate(bases[0], n) && Tried(bases[0], n) <= used;
      SuffixBound(bases[0], used, n);
    } else {
      AnchorsAreCandidates(bases[1..], used + {anchor}, h - 1);
    }
  }

  /** All anchors of an accepted aggregate, explicit or generated, differ exactly
      under the same condition.  For different slugs that is that no slug is an
      explicit anchor; for any slugs this is needed, and it is enough that no
      explicit anchor is a slug with a number up to the heading's position. */
  lemma AllAnchorsDiffer(sources: seq<Source>)
    requires Distinct(AllExplicit(sources))
    ensures Distinct(AllExplicit(sources) + AggregateAnchors(sources))
       <==> Taken(AllExplicit(sources)) !! Taken(Allocate(AllHeadings(sources), {}))
    ensures Distinct(AllExplicit(sources) + AggregateAnchors(sources))
            ==> Taken(AllExplicit(sources)) !! Taken(AllHeadings(sources))
    ensures Distinct(AllHeadings(sources)) && Taken(AllExplicit(sources)) !! Taken(AllHeadings(sources))
            ==> Distinct(AllExplicit(sources) + AggregateAnchors(sources))
    ensures (forall h: nat, n: nat :: n <= h < |AllHeadings(sources)| ==>
                                        Candidate(AllHeadings(sources)[h], n) !in Taken(AllExplicit(sources)))
            ==> Distinct(AllExplicit(sources) + AggregateAnchors(sources))
  {
    var bases, names := AllHeadings(sources), Taken(AllExplicit(sources));
    AllocateDistinct(bases, {});
    ExplicitStep(AllExplicit(sources), AggregateAnchors(sources));
    SlugsAreTaken(bases, {});
    if Distinct(bases) {
      DifferentSlugsAreKept(bases, {});
    }
    if forall h: nat, n: nat :: n <= h < |bases| ==> Candidate(bases[h], n) !in names {
      NoCandidateNoClash(bases, names);
    }
  }

  lemma NoCandidateNoClash(bases: seq<string>, names: set<string>)
    requires forall h: nat, n: nat :: n <= h < |bases| ==> Candidate(bases[h], n) !in names
    ensures Taken(Allocate(bases, {})) !! names
  {
    forall h | 0 <= h < |bases|
      ensures Allocate(bases, {})[h] !in names
    {
      AnchorsAreCandidates(bases, {}, h);
    }
    ClearTaken(Allocate(bases, {}), names);
  }

  /** Explicit anchors take no part in the search, so a heading of one source
      can be given the explicit anchor of another. */
  lemma ExplicitAnchorsCanCollide(targets: map<string, map<string, string>>)
    requires AggregateTargets([Source("a.md", ["scope"], []), Source("b.md", [], ["scope"])], 2, targets)
    ensures "a.md" in targets && "scope" in targets["a.md"] && targets["a.md"]["scope"] == "scope"
    ensures "b.md" in targets && "scope" in targets["b.md"] && targets["b.md"]["scope"] == "scope"
  {
    var a, b := Source("a.md", ["scope"], []), Source("b.md", [], ["scope"]);
    var sources := [a, b];
    assert sources[0] == a && sources[1] == b;
    assert sources[0].path in targets && sources[1].path in targets;
    assert Taken(a.explicit) == {"scope"} by { TakenOne("scope"); }
    assert SourceTargets(sources, 0, targets) && SourceTargets(sources, 1, targets);
    FirstSourceUnchanged(sources, targets, "scope");
    assert sources[..1] == [a] && [a][..0] == [] && AllHeadings([a]) == [];
    assert Taken(AggregateAnchors(sources[..1])) == {};
    AllocateSnoc([], "scope", {});
    assert [] + ["scope"] == ["scope"];
    var locals := Allocate(b.headings, {});
    assert locals == ["scope"] by {
      assert Tried("scope", 0) == {};
      assert {} + Taken(Allocate([], {})) == {};
    }
    assert Assigned(sources, 1) == locals;
    assert locals[0] in Taken(locals);
    assert targets["b.md"][locals[0]] == Assigned(sources, 1)[0];
  }

  // ----- the numbers -----

  lemma {:induction false} FreeAfter(base: string, k: nat, n: nat)
    requires n <= k && Tried(base, n) <= Tried(base, k)
    ensures Free(base, Tried(base, k), n) == Candidate(base, k)
    decreases k - n
  {
    NotTried(base, k, k);
    if n < k {
      TriedGrows(base, n + 1, k);
      FreeAfter(base, k, n + 1);
    }
  }

  lemma {:induction false} TriedGrows(base: string, n: nat, k: nat)
    requires n <= k
    ensures Tried(base, n) <= Tried(base, k)
    ensures 0 < n ==> Candidate(base, n - 1) in Tried(base, k)
    decreases k
  {
    if n < k {
      TriedGrows(base, n, k - 1);
    }
  }

  lemma AllocateNth(bases: seq<string>, used: set<string>, i: nat)
    requires i < |bases|
    ensures Allocate(bases, used)[i]
         == if i == 0 then Free(bases[0], used) else Allocate(bases[1..], used + {Free(bases[0], used)})[i - 1]
  {}

  predicate AllAre(bases: seq<string>, base: string) { forall i :: 0 <= i < |bases| ==> bases[i] == base }

  lemma {:induction false} SameSlugs(bases: seq<string>, base: string, k: nat, i: nat)
    requires AllAre(bases, base) && i < |bases|
    ensures Allocate(bases, Tried(base, k))[i] == Candidate(base, k + i)
  {
    FreeAfter(base, k, 0);
    AllocateNth(bases, Tried(base, k), i);
    if i > 0 {
      TriedNext(base, k);
      SameSlugs(bases[1..], base, k + 1, i - 1);
    }
  }

  lemma TriedNext(base: string, k: nat)
    ensures Tried(base, k) + {Candidate(base, k)} == Tried(base, k + 1)
  {}

  /** Headings with the same slug get it as it is, then with -1, -2, and so on. */
  lemma RepeatedSlugsAreNumbered(bases: seq<string>, base: string, i: nat)
    requires (forall h :: 0 <= h < |bases| ==> bases[h] == base) && i < |bases|
    ensures Allocate(bases, {})[i] == if i == 0 then base else base + "-" + Decimal(i)
  {
    SameSlugs(bases, base, 0, i);
  }
}
