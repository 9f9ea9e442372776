/** Comparing what a probe observed with what a vector requires. */
module Observations {
  import opened Wrappers
  import opened Collections
  import opened Ordering
  import opened JsonDiff

  datatype Delta = Delta(state: string, before: Json, after: Json)

  /** Another implementation that a vector needs at the far side. */
  datatype Need = Need(profile: string, producerRole: Option<string>)

  datatype Counterpart = Counterpart(implementation: bool, profile: string, producerRole: Option<string>,
                                     boundaryId: string, artifactSha: string)

  datatype Vector = Vector(id: string, requirementIds: seq<string>, needs: seq<Need>,
                           required: seq<string>, forbidden: seq<string>,
                           error: Option<string>, policyReason: Option<string>, matchReason: Option<string>,
                           deltas: seq<Delta>)

  datatype Subject = Subject(suiteFixture: bool, boundaryId: string, artifactSha: string, counterparts: seq<Counterpart>)

  datatype Observation = Observation(id: string, vectorId: string, runId: string, subjectSha: string, harnessSha: string,
                                     counterpartShas: seq<string>, tokens: seq<string>,
                                     error: Option<string>, policyReason: Option<string>, matchReason: Option<string>,
                                     deltas: seq<Delta>, capturedAt: int)

  // ----- state deltas -----

  /** Python's == on parsed JSON compares numbers across types (True == 1 == 1.0);
      two values are equal there exactly when their normal forms are. */
  function Normal(j: Json): Json {
    match j
    case JBool(b) => JFloat(if b then 1.0 else 0.0)
    case JInt(i) => JFloat(i as real)
    case JArr(items) => JArr(seq(|items|, i requires 0 <= i < |items| => Normal(items[i])))
    case JObj(members) => JObj(map k | k in members :: Normal(members[k]))
    case _ => j
  }

  /** The value of a number or a Boolean. */
  function NumberOf(j: Json): Option<real> {
    match j
    case JBool(b) => Some(if b then 1.0 else 0.0)
    case JInt(i) => Some(i as real)
    case JFloat(r) => Some(r)
    case _ => None
  }

  /** Python's == on parsed JSON. */
  predicate PyEqual(a: Json, b: Json)
    decreases a
  {
    match (a, b)
    case (JNull, JNull) => true
    case (JStr(s), JStr(t)) => s == t
    case (JArr(xs), JArr(ys)) => |xs| == |ys| && forall i :: 0 <= i < |xs| ==> PyEqual(xs[i], ys[i])
    case (JObj(m), JObj(n)) => m.Keys == n.Keys && forall k :: k in m ==> PyEqual(m[k], n[k])
    case _ => NumberOf(a).Some? && NumberOf(a) == NumberOf(b)
  }

  /** Equality is having the same normal form. */
  lemma {:induction false} NormalIsEquality(a: Json, b: Json)
    ensures Normal(a) == Normal(b) <==> PyEqual(a, b)
    decreases a
  {
    match (a, b)
    case (JArr(xs), JArr(ys)) =>
      forall i | 0 <= i < |xs| && i < |ys|
        ensures Normal(xs[i]) == Normal(ys[i]) <==> PyEqual(xs[i], ys[i])
      {
        NormalIsEquality(xs[i], ys[i]);
      }
      NormalItems(xs, ys);
    case (JObj(m), JObj(n)) =>
      forall k | k in m && k in n
        ensures Normal(m[k]) == Normal(n[k]) <==> PyEqual(m[k], n[k])
      {
        NormalIsEquality(m[k], n[k]);
      }
      NormalMembers(m, n);
    case _ =>
  }

  lemma NormalItems(xs: seq<Json>, ys: seq<Json>)
    ensures Normal(JArr(xs)) == Normal(JArr(ys))
       <==> |xs| == |ys| && forall i :: 0 <= i < |xs| ==> Normal(xs[i]) == Normal(ys[i])
  {
    if Normal(JArr(xs)) == Normal(JArr(ys)) {
      forall i | 0 <= i < |xs|
        ensures Normal(xs[i]) == Normal(ys[i])
      {
        assert Normal(JArr(xs)).items[i] == Normal(JArr(ys)).items[i];
      }
    }
  }

  lemma NormalMembers(m: map<string, Json>, n: map<string, Json>)
    ensures Normal(JObj(m)) == Normal(JObj(n)) <==> m.Keys == n.Keys && forall k :: k in m ==> Normal(m[k]) == Normal(n[k])
  {
    var p, q := Normal(JObj(m)).members, Normal(JObj(n)).members;
    assert p.Keys == m.Keys && q.Keys == n.Keys;
    if p == q {
      forall k | k in m
        ensures Normal(m[k]) == Normal(n[k])
      {
        assert p[k] == q[k];
      }
    }
  }

  function NormalDelta(d: Delta): Delta { Delta(d.state, Normal(d.before), Normal(d.after)) }

  function NormalDeltas(ds: seq<Delta>): (r: seq<Delta>)
    ensures |r| == |ds|
  {
    seq(|ds|, i requires 0 <= i < |ds| => NormalDelta(ds[i]))
  }

  function InsertDelta(d: Delta, ds: seq<Delta>): seq<Delta> {
    if ds == [] || !Less(ds[0].state, d.state) then [d] + ds else [ds[0]] + InsertDelta(d, ds[1..])
  }

  /** sorted(deltas, key=state), which is stable. */
  function SortDeltas(ds: seq<Delta>): seq<Delta> {
    if ds == [] then [] else InsertDelta(ds[0], SortDeltas(ds[1..]))
  }

  predicate AscendingStates(ds: seq<Delta>) {
    forall i, j :: 0 <= i < j < |ds| ==> Less(ds[i].state, ds[j].state)
  }

  predicate DistinctStates(ds: seq<Delta>) {
    forall i, j :: 0 <= i < j < |ds| ==> ds[i].state != ds[j].state
  }

  lemma {:induction false} InsertDeltaContents(d: Delta, ds: seq<Delta>)
    ensures multiset(InsertDelta(d, ds)) == multiset(ds) + multiset{d}
  {
    if ds != [] && Less(ds[0].state, d.state) {
      assert ds == [ds[0]] + ds[1..];
      InsertDeltaContents(d, ds[1..]);
    }
  }

  lemma {:induction false} SortDeltasContents(ds: seq<Delta>)
    ensures multiset(SortDeltas(ds)) == multiset(ds)
  {
    if ds != [] {
      assert ds == [ds[0]] + ds[1..];
      SortDeltasContents(ds[1..]);
      InsertDeltaContents(ds[0], SortDeltas(ds[1..]));
    }
  }

  lemma {:induction false} InsertDeltaAscending(d: Delta, ds: seq<Delta>)
    requires AscendingStates(ds) && forall x :: x in ds ==> x.state != d.state
    ensures AscendingStates(InsertDelta(d, ds))
  {
    if ds != [] {
      if Less(ds[0].state, d.state) {
        InsertDeltaAscending(d, ds[1..]);
        InsertDeltaContents(d, ds[1..]);
        var rest := InsertDelta(d, ds[1..]);
        forall j | 0 <= j < |rest|
          ensures Less(ds[0].state, rest[j].state)
        {
          assert rest[j] in multiset(rest);
          if rest[j] != d {
            assert rest[j] in multiset(ds[1..]);
            var k :| 0 <= k < |ds[1..]| && ds[1..][k] == rest[j];
            assert ds[k + 1] == rest[j];
          }
        }
      } else {
        assert ds[0] in ds;
        LessTotal(ds[0].state, d.state);
        forall j | 0 <= j < |ds|
          ensures Less(d.state, ds[j].state)
        {
          if j > 0 {
            LessTransitive(d.state, ds[0].state, ds[j].state);
          }
        }
      }
    }
  }

  lemma {:induction false} SortDeltasAscending(ds: seq<Delta>)
    requires DistinctStates(ds)
    ensures AscendingStates(SortDeltas(ds))
  {
    if ds != [] {
      SortDeltasAscending(ds[1..]);
      SortDeltasContents(ds[1..]);
      forall x | x in SortDeltas(ds[1..])
        ensures x.state != ds[0].state
      {
        assert x in multiset(SortDeltas(ds[1..]));
        assert x in multiset(ds[1..]);
        var k :| 0 <= k < |ds[1..]| && ds[1..][k] == x;
        assert ds[k + 1] == x;
      }
      InsertDeltaAscending(ds[0], SortDeltas(ds[1..]));
    }
  }

  lemma FirstNotAfter(a: seq<Delta>, x: Delta)
    requires AscendingStates(a) && x in a
    ensures a[0] == x || Less(a[0].state, x.state)
  {
    var i :| 0 <= i < |a| && a[i] == x;
  }

  lemma SameFirst(a: seq<Delta>, b: seq<Delta>)
    requires AscendingStates(a) && AscendingStates(b) && a != [] && b != []
    requires a[0] in b && b[0] in a
    ensures a[0] == b[0]
  {
    FirstNotAfter(a, b[0]);
    FirstNotAfter(b, a[0]);
    if Less(a[0].state, b[0].state) && Less(b[0].state, a[0].state) {
      LessTransitive(a[0].state, b[0].state, a[0].state);
    }
    LessIrreflexive(a[0].state);
  }

  lemma WithoutFirst(a: seq<Delta>)
    requires a != []
    ensures multiset(a[1..]) == multiset(a) - multiset{a[0]} && a == [a[0]] + a[1..]
  {
    assert a == [a[0]] + a[1..];
  }

  lemma {:induction false} AscendingStatesUnique(a: seq<Delta>, b: seq<Delta>)
    requires AscendingStates(a) && AscendingStates(b) && multiset(a) == multiset(b)
    ensures a == b
  {
    assert |multiset(a)| == |a| == |b| == |multiset(b)|;
    if a != [] {
      assert a[0] in multiset(b) && b[0] in multiset(a);
      SameFirst(a, b);
      WithoutFirst(a);
      WithoutFirst(b);
      AscendingStatesUnique(a[1..], b[1..]);
    }
  }

  /** The suite's comparison of sorted delta lists asks for the same changes, in
      any order, whenever the vector names no state twice. */
  lemma DeltasAgree(expected: seq<Delta>, observed: seq<Delta>)
    requires DistinctStates(expected)
    ensures SortDeltas(NormalDeltas(observed)) == SortDeltas(NormalDeltas(expected))
       <==> multiset(NormalDeltas(observed)) == multiset(NormalDeltas(expected))
  {
    var e, o := NormalDeltas(expected), NormalDeltas(observed);
    SortDeltasContents(e);
    SortDeltasContents(o);
    if multiset(o) == multiset(e) {
      SameStates(e, o);
      SortDeltasAscending(e);
      SortDeltasAscending(o);
      AscendingStatesUnique(SortDeltas(e), SortDeltas(o));
    }
  }

  lemma SameStates(a: seq<Delta>, b: seq<Delta>)
    requires DistinctStates(a) && multiset(a) == multiset(b)
    ensures DistinctStates(b)
  {
    forall i, j | 0 <= i < j < |b|
      ensures b[i].state != b[j].state
    {
      assert b[i] in multiset(b) && b[j] in multiset(b);
      var k :| 0 <= k < |a| && a[k] == b[i];
      var l :| 0 <= l < |a| && a[l] == b[j];
      if k == l {
        assert b == b[..i] + [b[i]] + b[i + 1..j] + [b[j]] + b[j + 1..];
        assert multiset(b)[b[i]] >= 2;
        DistinctCount(a, k);
      }
    }
  }

  lemma {:induction false} DistinctCount(a: seq<Delta>, k: nat)
    requires DistinctStates(a) && k < |a|
    ensures multiset(a)[a[k]] == 1
  {
    assert a == a[..k] + [a[k]] + a[k + 1..];
    assert a[k] !in a[..k] && a[k] !in a[k + 1..];
  }

  /** The two deltas say the same of the same state. */
  predicate SameDelta(d: Delta, e: Delta) { d.state == e.state && PyEqual(d.before, e.before) && PyEqual(d.after, e.after) }

  predicate Shown(observed: seq<Delta>, d: Delta) { exists j :: 0 <= j < |observed| && SameDelta(observed[j], d) }

  /** Every expected change is observed, once; and nothing else, since there are
      as many observed changes, of different states. */
  predicate ShowsExactly(observed: seq<Delta>, expected: seq<Delta>) {
    && |observed| == |expected| && DistinctStates(observed)
    && forall i :: 0 <= i < |expected| ==> Shown(observed, expected[i])
  }

  lemma SameDeltaIsNormal(d: Delta, e: Delta)
    ensures NormalDelta(d) == NormalDelta(e) <==> SameDelta(d, e)
  {
    NormalIsEquality(d.before, e.before);
    NormalIsEquality(d.after, e.after);
  }

  lemma NormalShows(observed: seq<Delta>, expected: seq<Delta>)
    requires multiset(NormalDeltas(observed)) == multiset(NormalDeltas(expected))
    ensures |observed| == |expected|
    ensures forall i :: 0 <= i < |expected| ==> Shown(observed, expected[i])
  {
    var o, e := NormalDeltas(observed), NormalDeltas(expected);
    assert |multiset(o)| == |o| && |multiset(e)| == |e|;
    forall i | 0 <= i < |expected|
      ensures Shown(observed, expected[i])
    {
      assert e[i] in multiset(o);
      var j :| 0 <= j < |o| && o[j] == e[i];
      SameDeltaIsNormal(observed[j], expected[i]);
    }
  }

  lemma ShowsNormal(observed: seq<Delta>, expected: seq<Delta>)
    requires DistinctStates(expected) && ShowsExactly(observed, expected)
    ensures multiset(NormalDeltas(observed)) == multiset(NormalDeltas(expected))
  {
    var o, e := NormalDeltas(observed), NormalDeltas(expected);
    forall x | x in e
      ensures x in o
    {
      var i :| 0 <= i < |e| && e[i] == x;
      ShownIsNormal(observed, expected, i);
    }
    DistinctNormal(expected);
    DistinctNormal(observed);
    DistinctSameMembers(e, o);
  }

  lemma ShownIsNormal(observed: seq<Delta>, expected: seq<Delta>, i: nat)
    requires i < |expected| && ShowsExactly(observed, expected)
    ensures NormalDeltas(expected)[i] in NormalDeltas(observed)
  {
    var j :| 0 <= j < |observed| && SameDelta(observed[j], expected[i]);
    SameDeltaIsNormal(observed[j], expected[i]);
    assert NormalDeltas(observed)[j] == NormalDeltas(expected)[i];
  }

  lemma DistinctNormal(ds: seq<Delta>)
    ensures DistinctStates(NormalDeltas(ds)) <==> DistinctStates(ds)
    ensures DistinctStates(ds) ==> Distinct(NormalDeltas(ds))
  {
    var n := NormalDeltas(ds);
    assert forall i :: 0 <= i < |ds| ==> n[i].state == ds[i].state;
    if DistinctStates(n) {
      forall i, j | 0 <= i < j < |ds|
        ensures ds[i].state != ds[j].state
      {
        assert n[i].state != n[j].state;
      }
    }
  }

  /** The deltas agree as multisets of normal forms exactly when every expected
      change is observed, once, with equal values, and nothing else is. */
  lemma DeltasShow(expected: seq<Delta>, observed: seq<Delta>)
    requires DistinctStates(expected)
    ensures multiset(NormalDeltas(observed)) == multiset(NormalDeltas(expected)) <==> ShowsExactly(observed, expected)
  {
    if multiset(NormalDeltas(observed)) == multiset(NormalDeltas(expected)) {
      DistinctNormal(expected);
      SameStates(NormalDeltas(expected), NormalDeltas(observed));
      DistinctNormal(observed);
      NormalShows(observed, expected);
    }
    if ShowsExactly(observed, expected) {
      ShowsNormal(observed, expected);
    }
  }

  // ----- _compare_observation -----

  datatype Mismatch = VectorId | ErrorCode | PolicyReason | MatchReason | TokenSet | ForbiddenToken | StateDelta

  function Tokens(tokens: seq<string>): set<string> {
    set t | t in tokens
  }

  /** None where the observation passes. */
  function CompareObservation(vector: Vector, o: Observation): Option<Mismatch> {
    if o.vectorId != vector.id then Some(VectorId)
    else if o.error != vector.error then Some(ErrorCode)
    else if o.policyReason != vector.policyReason then Some(PolicyReason)
    else if o.matchReason != vector.matchReason then Some(MatchReason)
    else if Tokens(o.tokens) != Tokens(vector.required) then Some(TokenSet)
    else if Tokens(vector.forbidden) * Tokens(o.tokens) != {} then Some(ForbiddenToken)
    else if SortDeltas(NormalDeltas(o.deltas)) != SortDeltas(NormalDeltas(vector.deltas)) then Some(StateDelta)
    else None
  }

  /** What the catalog guarantees about each vector's expectations. */
  predicate WellExpected(vector: Vector) {
    Tokens(vector.required) !! Tokens(vector.forbidden) && DistinctStates(vector.deltas)
  }

  /** The observation is the vector's own and shows exactly what it requires. */
  ghost predicate Meets(vector: Vector, o: Observation) {
    && o.vectorId == vector.id
    && o.error == vector.error && o.policyReason == vector.policyReason && o.matchReason == vector.matchReason
    && (forall t :: t in o.tokens <==> t in vector.required)
    && ShowsExactly(o.deltas, vector.deltas)
  }

  lemma PassingMeets(vector: Vector, o: Observation)
    requires WellExpected(vector)
    ensures CompareObservation(vector, o).None? <==> Meets(vector, o)
    ensures CompareObservation(vector, o) != Some(ForbiddenToken)
  {
    DeltasAgree(vector.deltas, o.deltas);
    DeltasShow(vector.deltas, o.deltas);
    assert Tokens(o.tokens) == Tokens(vector.required) <==> forall t :: t in o.tokens <==> t in vector.required by {
      assert forall t :: t in Tokens(o.tokens) <==> t in o.tokens;
      assert forall t :: t in Tokens(vector.required) <==> t in vector.required;
    }
  }

  // ----- _required_counterpart_digests -----

  predicate Suits(c: Counterpart, need: Need, subject: Subject, matched: seq<Counterpart>) {
    && c.implementation && c.profile == need.profile && c.producerRole == need.producerRole
    && c.boundaryId != subject.boundaryId && c.artifactSha != subject.artifactSha
    && c !in matched
  }

  function Candidates(counterparts: seq<Counterpart>, need: Need, subject: Subject, matched: seq<Counterpart>): (r: seq<Counterpart>)
    ensures forall c :: c in r <==> c in counterparts && Suits(c, need, subject, matched)
  {
    if counterparts == [] then [] else
    var n := |counterparts| - 1;
    assert counterparts == counterparts[..n] + [counterparts[n]];
    Candidates(counterparts[..n], need, subject, matched)
    + if Suits(counterparts[n], need, subject, matched) then [counterparts[n]] else []
  }

  /** One counterpart per need, each the only candidate left for it. */
  function MatchNeeds(needs: seq<Need>, subject: Subject): Option<seq<Counterpart>> {
    if needs == [] then Some([]) else
    var n := |needs| - 1;
    match MatchNeeds(needs[..n], subject)
    case None => None
    case Some(matched) =>
      var candidates := Candidates(subject.counterparts, needs[n], subject, matched);
      if |candidates| != 1 then None else Some(matched + candidates)
  }

  function Digests(cs: seq<Counterpart>, digest: Counterpart -> string): (r: seq<string>)
    ensures |r| == |cs|
  {
    seq(|cs|, i requires 0 <= i < |cs| => digest(cs[i]))
  }

  /** None where a need has no candidate or more than one. */
  function RequiredDigests(needs: seq<Need>, subject: Subject, digest: Counterpart -> string): Option<seq<string>> {
    match MatchNeeds(needs, subject)
    case None => None
    case Some(matched) => Some(Digests(matched, digest))
  }

  lemma {:induction false} NoMatchStays(needs: seq<Need>, n: nat, subject: Subject)
    requires n <= |needs| && MatchNeeds(needs[..n], subject).None?
    ensures MatchNeeds(needs, subject).None?
    decreases |needs| - n
  {
    if n < |needs| {
      assert needs[..n + 1][..n] == needs[..n];
      NoMatchStays(needs, n + 1, subject);
    } else {
      assert needs[..n] == needs;
    }
  }

  method RequiredCounterpartDigests(vector: Vector, subject: Subject, digest: Counterpart -> string)
    returns (r: Option<seq<string>>)
    ensures r == RequiredDigests(vector.needs, subject, digest)
  {
    var matched: seq<Counterpart> := [];
    for i := 0 to |vector.needs|
      invariant MatchNeeds(vector.needs[..i], subject) == Some(matched)
    {
      assert vector.needs[..i + 1][..i] == vector.needs[..i];
      var candidates := Candidates(subject.counterparts, vector.needs[i], subject, matched);
      if |candidates| != 1 {
        NoMatchStays(vector.needs, i + 1, subject);
        return None;
      }
      assert candidates == [candidates[0]];
      matched := matched + [candidates[0]];
    }
    assert vector.needs[..|vector.needs|] == vector.needs;
    r := Some(Digests(matched, digest));
  }

  /** What a need asks of a counterpart: another implementation of the profile in
      the role, behind another boundary and of another build than the subject. */
  predicate Independent(c: Counterpart, need: Need, subject: Subject) {
    && c.implementation && c.profile == need.profile && c.producerRole == need.producerRole
    && c.boundaryId != subject.boundaryId && c.artifactSha != subject.artifactSha
  }

  /** Matched counterparts are pairwise different, fit their needs in order and
      share neither boundary nor artifact with the subject. */
  lemma MatchedAreIndependent(needs: seq<Need>, subject: Subject)
    requires MatchNeeds(needs, subject).Some?
    ensures var cs := MatchNeeds(needs, subject).value;
            && |cs| == |needs|
            && (forall i :: 0 <= i < |cs| ==> cs[i] in subject.counterparts && Independent(cs[i], needs[i], subject))
            && forall i, j :: 0 <= i < j < |cs| ==> cs[i] != cs[j]
  {
    MatchedSuit(needs, subject);
    var cs := MatchNeeds(needs, subject).value;
    forall i | 0 <= i < |cs|
      ensures cs[i] in subject.counterparts && Independent(cs[i], needs[i], subject)
    {
      assert Suits(cs[i], needs[i], subject, cs[..i]);
    }
  }

  /** Only one counterpart that is left fits the first need. */
  ghost predicate OnlyChoice(c: Counterpart, need: Need, subject: Subject, matched: seq<Counterpart>) {
    c in subject.counterparts && c !in matched && Independent(c, need, subject)
    && forall d :: d in subject.counterparts && d !in matched && Independent(d, need, subject) ==> d == c
  }

  lemma OneCandidate(subject: Subject, need: Need, matched: seq<Counterpart>)
    requires |Candidates(subject.counterparts, need, subject, matched)| == 1
    ensures OnlyChoice(Candidates(subject.counterparts, need, subject, matched)[0], need, subject, matched)
  {
    var candidates := Candidates(subject.counterparts, need, subject, matched);
    assert candidates[0] in candidates;
    forall d | d in subject.counterparts && d !in matched && Independent(d, need, subject)
      ensures d == candidates[0]
    {
      assert Suits(d, need, subject, matched);
      assert d in candidates;
    }
  }

  /** Each matched counterpart was the only choice when its turn came. */
  lemma {:induction false} MatchedWereOnlyChoice(needs: seq<Need>, subject: Subject, i: nat)
    requires MatchNeeds(needs, subject).Some? && i < |needs|
    ensures var cs := MatchNeeds(needs, subject).value;
            |cs| == |needs| && OnlyChoice(cs[i], needs[i], subject, cs[..i])
  {
    var n := |needs| - 1;
    var front, cs := MatchNeeds(needs[..n], subject).value, MatchNeeds(needs, subject).value;
    MatchedSuit(needs[..n], subject);
    MatchedSuit(needs, subject);
    if i < n {
      MatchedWereOnlyChoice(needs[..n], subject, i);
      assert front[..i] == cs[..i] && front[i] == cs[i];
    } else {
      assert cs[..n] == front;
      OneCandidate(subject, needs[n], front);
    }
  }

  lemma {:induction false} MatchedSuit(needs: seq<Need>, subject: Subject)
    requires MatchNeeds(needs, subject).Some?
    ensures var cs := MatchNeeds(needs, subject).value;
            && |cs| == |needs|
            && (forall i :: 0 <= i < |cs| ==> cs[i] in subject.counterparts && Suits(cs[i], needs[i], subject, cs[..i]))
            && forall i, j :: 0 <= i < j < |cs| ==> cs[i] != cs[j]
  {
    if needs != [] {
      var n := |needs| - 1;
      MatchedSuit(needs[..n], subject);
      var front := MatchNeeds(needs[..n], subject).value;
      var cs := MatchNeeds(needs, subject).value;
      assert cs[n] in Candidates(subject.counterparts, needs[n], subject, front);
      forall i | 0 <= i < |cs|
        ensures cs[i] in subject.counterparts && Suits(cs[i], needs[i], subject, cs[..i])
      {
        assert cs[..i] == front[..i];
        assert front[..n] == front;
      }
      forall i | 0 <= i < n
        ensures cs[i] != cs[n]
      {
        assert front[i] in front;
      }
    }
  }
}
