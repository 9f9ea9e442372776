/** Which vectors of the matrix apply to a subject. */
module Applicability {
  import opened Collections
  import opened Wrappers
  import opened Ordering

  datatype Rule = Always | Feature(featureId: string) | ProducerRole(role: string)

  datatype Requirement = Requirement(profile: string, rule: Rule, vectorIds: seq<string>)

  /** The parts of a vector that decide where it belongs. */
  datatype Placement = Placement(profile: string, producerRole: Option<string>, requirementIds: seq<string>)

  /** The requirement/vector matrix; `profiles` lists the requirements of each
      profile in canonical order. */
  datatype Matrix = Matrix(profiles: map<string, seq<string>>, requirements: map<string, Requirement>,
                           vectors: map<string, Placement>)

  datatype Selection = Selection(profile: string, features: set<string>, producerRole: Option<string>)

  datatype Reason = FeatureNotSelected | ProducerRoleMismatch

  // ----- the catalog checks -----

  /** Every reference in the matrix resolves. */
  ghost predicate Linked(m: Matrix) {
    && (forall p, r :: p in m.profiles && r in m.profiles[p] ==> r in m.requirements)
    && forall r, v :: r in m.requirements && v in m.requirements[r].vectorIds ==> v in m.vectors
  }

  /** What loading a catalog establishes: profiles list exactly their own
      requirements, requirements and vectors refer to each other mutually, and
      the requirements of one vector agree in profile and applicability. */
  ghost predicate Checked(m: Matrix) {
    && Linked(m)
    && (forall p, r :: p in m.profiles && r in m.requirements ==> (r in m.profiles[p] <==> m.requirements[r].profile == p))
    && (forall v :: v in m.vectors ==> m.vectors[v].requirementIds != [])
    && (forall v, r :: v in m.vectors ==>
                         (r in m.vectors[v].requirementIds <==> r in m.requirements && v in m.requirements[r].vectorIds))
    && (forall v, r :: v in m.vectors && r in m.vectors[v].requirementIds ==> m.requirements[r].profile == m.vectors[v].profile)
    && forall v, r, q :: v in m.vectors && r in m.vectors[v].requirementIds && q in m.vectors[v].requirementIds ==>
                           m.requirements[r].rule == m.requirements[q].rule
  }

  // ----- one vector -----

  /** `_requirement_is_applicable` */
  predicate RuleHolds(rule: Rule, s: Selection) {
    match rule
    case Always => true
    case Feature(f) => f in s.features
    case ProducerRole(role) => s.producerRole == Some(role)
  }

  predicate RoleMatches(placement: Placement, s: Selection) {
    placement.producerRole.None? || placement.producerRole == s.producerRole
  }

  /** The verdict on a vector where one requirement mentions it: None if it is
      applicable, else the reason. */
  function Judge(requirement: Requirement, placement: Placement, s: Selection): Option<Reason> {
    if !RoleMatches(placement, s) then Some(ProducerRoleMismatch)
    else if RuleHolds(requirement.rule, s) then None
    else Some(if requirement.rule.Feature? then FeatureNotSelected else ProducerRoleMismatch)
  }

  // ----- applicable_vectors -----

  datatype Split = Split(applicable: seq<string>, notApplicable: seq<(string, Reason)>)

  predicate InReasons(list: seq<(string, Reason)>, v: string) {
    exists i :: 0 <= i < |list| && list[i].0 == v
  }

  /** One mention of a vector: the first of either kind is recorded. */
  function Mention(split: Split, v: string, judged: Option<Reason>): Split {
    match judged
    case None => if v in split.applicable then split else split.(applicable := split.applicable + [v])
    case Some(reason) =>
      if InReasons(split.notApplicable, v) then split
      else split.(notApplicable := split.notApplicable + [(v, reason)])
  }

  function MentionAll(m: Matrix, s: Selection, split: Split, requirement: Requirement, n: nat): Split
    requires n <= |requirement.vectorIds| && forall v :: v in requirement.vectorIds ==> v in m.vectors
  {
    if n == 0 then split else
    var v := requirement.vectorIds[n - 1];
    Mention(MentionAll(m, s, split, requirement, n - 1), v, Judge(requirement, m.vectors[v], s))
  }

  /** The split after the first `n` requirements of the profile. */
  function SplitOf(m: Matrix, s: Selection, n: nat): Split
    requires Linked(m) && s.profile in m.profiles && n <= |m.profiles[s.profile]|
  {
    if n == 0 then Split([], []) else
    var requirement := m.requirements[m.profiles[s.profile][n - 1]];
    MentionAll(m, s, SplitOf(m, s, n - 1), requirement, |requirement.vectorIds|)
  }

  ghost predicate Overlap(split: Split) {
    exists v :: v in split.applicable && InReasons(split.notApplicable, v)
  }

  function CoveredFeatures(m: Matrix, profile: string): set<string> {
    set r | r in m.requirements && m.requirements[r].profile == profile && m.requirements[r].rule.Feature? ::
      m.requirements[r].rule.featureId
  }

  datatype Derivation = Derivation(split: Split, uncovered: seq<string>)

  /** The derivation is determined by the matrix and the subject. */
  ghost predicate Derives(m: Matrix, s: Selection, d: Derivation)
    requires Linked(m) && s.profile in m.profiles
  {
    && d.split == SplitOf(m, s, |m.profiles[s.profile]|)
    && Ascending(d.uncovered)
    && forall f :: f in d.uncovered <==> f in s.features && !FeatureRequired(m, s.profile, f)
  }

  /** Some requirement of the profile is conditional on the feature. */
  ghost predicate FeatureRequired(m: Matrix, profile: string, f: string) {
    exists r :: r in m.requirements && m.requirements[r] == Requirement(profile, Feature(f), m.requirements[r].vectorIds)
  }

  lemma CoveredMeans(m: Matrix, profile: string, f: string)
    ensures f in CoveredFeatures(m, profile) <==> FeatureRequired(m, profile, f)
  {
    if r :| r in m.requirements && m.requirements[r] == Requirement(profile, Feature(f), m.requirements[r].vectorIds) {
      assert m.requirements[r].rule.featureId in CoveredFeatures(m, profile);
    }
  }

  lemma DerivationUnique(m: Matrix, s: Selection, d: Derivation, e: Derivation)
    requires Linked(m) && s.profile in m.profiles && Derives(m, s, d) && Derives(m, s, e)
    ensures d == e
  {
    AscendingUnique(d.uncovered, e.uncovered);
  }

  /** None where conflicting applicability is reported. */
  method ApplicableVectors(m: Matrix, s: Selection) returns (r: Option<Derivation>)
    requires Linked(m) && s.profile in m.profiles
    ensures r.None? <==> Overlap(SplitOf(m, s, |m.profiles[s.profile]|))
    ensures r.Some? ==> Derives(m, s, r.value)
  {
    var requirementIds := m.profiles[s.profile];
    var applicable: seq<string>, notApplicable: seq<(string, Reason)> := [], [];
    var applicableSeen: set<string>, notApplicableSeen: set<string> := {}, {};
    for i := 0 to |requirementIds|
      invariant Split(applicable, notApplicable) == SplitOf(m, s, i)
      invariant forall v :: v in applicableSeen <==> v in applicable
      invariant forall v :: v in notApplicableSeen <==> InReasons(notApplicable, v)
    {
      var requirement := m.requirements[requirementIds[i]];
      for j := 0 to |requirement.vectorIds|
        invariant Split(applicable, notApplicable) == MentionAll(m, s, SplitOf(m, s, i), requirement, j)
        invariant forall v :: v in applicableSeen <==> v in applicable
        invariant forall v :: v in notApplicableSeen <==> InReasons(notApplicable, v)
      {
        var v := requirement.vectorIds[j];
        var judged := Judge(requirement, m.vectors[v], s);
        if judged.None? {
          if v !in applicableSeen {
            applicable := applicable + [v];
            applicableSeen := applicableSeen + {v};
          }
        } else if v !in notApplicableSeen {
          ReasonAppended(notApplicable, v, judged.value);
          notApplicable := notApplicable + [(v, judged.value)];
          notApplicableSeen := notApplicableSeen + {v};
        }
      }
    }
    if applicableSeen * notApplicableSeen != {} {
      assert exists v :: v in applicableSeen * notApplicableSeen;
      return None;
    }
    assert forall v :: v in applicable && InReasons(notApplicable, v) ==> v in applicableSeen * notApplicableSeen;
    var uncovered := SortedSet(s.features - CoveredFeatures(m, s.profile));
    forall f
      ensures f in CoveredFeatures(m, s.profile) <==> FeatureRequired(m, s.profile, f)
    {
      CoveredMeans(m, s.profile, f);
    }
    r := Some(Derivation(Split(applicable, notApplicable), uncovered));
  }

  lemma ReasonAppended(list: seq<(string, Reason)>, v: string, reason: Reason)
    ensures forall w :: InReasons(list + [(v, reason)], w) <==> InReasons(list, w) || w == v
  {
    var more := list + [(v, reason)];
    forall w | InReasons(list, w) || w == v
      ensures InReasons(more, w)
    {
      if w == v {
        assert more[|list|].0 == w;
      } else {
        var i :| 0 <= i < |list| && list[i].0 == w;
        assert more[i].0 == w;
      }
    }
  }

  // ----- what the split contains -----

  /** Some requirement of the profile mentions `v` with the given outcome. */
  ghost predicate MentionedAs(m: Matrix, s: Selection, n: nat, v: string, applicable: bool)
    requires Linked(m) && s.profile in m.profiles && n <= |m.profiles[s.profile]|
  {
    exists i :: 0 <= i < n && MentionedBy(m, s, m.profiles[s.profile][i], v, applicable)
  }

  ghost predicate MentionedBy(m: Matrix, s: Selection, r: string, v: string, applicable: bool) {
    r in m.requirements && v in m.requirements[r].vectorIds && v in m.vectors
    && Judge(m.requirements[r], m.vectors[v], s).None? == applicable
  }

  lemma {:induction false} MentionAllContents(m: Matrix, s: Selection, split: Split, r: string, n: nat, v: string)
    requires Linked(m) && r in m.requirements && n <= |m.requirements[r].vectorIds|
    ensures var after := MentionAll(m, s, split, m.requirements[r], n);
            var ids := m.requirements[r].vectorIds[..n];
            && (v in after.applicable <==> (v in split.applicable || (v in ids && MentionedBy(m, s, r, v, true))))
            && (InReasons(after.notApplicable, v) <==>
                (InReasons(split.notApplicable, v) || (v in ids && MentionedBy(m, s, r, v, false))))
  {
    var requirement := m.requirements[r];
    if n > 0 {
      MentionAllContents(m, s, split, r, n - 1, v);
      var ids := requirement.vectorIds;
      assert ids[..n] == ids[..n - 1] + [ids[n - 1]];
      var before := MentionAll(m, s, split, requirement, n - 1);
      var judged := Judge(requirement, m.vectors[ids[n - 1]], s);
      if judged.Some? {
        ReasonAppended(before.notApplicable, ids[n - 1], judged.value);
      }
    }
  }

  lemma {:induction false} SplitContents(m: Matrix, s: Selection, n: nat, v: string)
    requires Linked(m) && s.profile in m.profiles && n <= |m.profiles[s.profile]|
    ensures v in SplitOf(m, s, n).applicable <==> MentionedAs(m, s, n, v, true)
    ensures InReasons(SplitOf(m, s, n).notApplicable, v) <==> MentionedAs(m, s, n, v, false)
  {
    if n > 0 {
      var r := m.profiles[s.profile][n - 1];
      SplitContents(m, s, n - 1, v);
      var requirement := m.requirements[r];
      MentionAllContents(m, s, SplitOf(m, s, n - 1), r, |requirement.vectorIds|, v);
      assert requirement.vectorIds[..|requirement.vectorIds|] == requirement.vectorIds;
      MentionedStep(m, s, n, v, true);
      MentionedStep(m, s, n, v, false);
    }
  }

  lemma MentionedStep(m: Matrix, s: Selection, n: nat, v: string, applicable: bool)
    requires Linked(m) && s.profile in m.profiles && 0 < n <= |m.profiles[s.profile]|
    ensures MentionedAs(m, s, n, v, applicable) <==>
            MentionedAs(m, s, n - 1, v, applicable) || MentionedBy(m, s, m.profiles[s.profile][n - 1], v, applicable)
  {
    if MentionedAs(m, s, n - 1, v, applicable) {
      var i :| 0 <= i < n - 1 && MentionedBy(m, s, m.profiles[s.profile][i], v, applicable);
      assert 0 <= i < n;
    }
  }

  /** A vector applies when its role fits and its requirements' common rule
      holds. */
  ghost predicate Applies(m: Matrix, s: Selection, v: string) {
    && v in m.vectors
    && (m.vectors[v].producerRole.Some? ==> s.producerRole == m.vectors[v].producerRole)
    && exists r :: r in m.vectors[v].requirementIds && r in m.requirements && Selected(m.requirements[r].rule, s)
  }

  /** Without a condition, or the feature is selected, or the role is the subject's. */
  predicate Selected(rule: Rule, s: Selection) {
    rule == Always || (exists f :: f in s.features && rule == Feature(f))
    || (s.producerRole.Some? && rule == ProducerRole(s.producerRole.value))
  }

  lemma SelectedMeans(rule: Rule, s: Selection)
    ensures RuleHolds(rule, s) <==> Selected(rule, s)
  {}

  lemma MentionsMeanApplies(m: Matrix, s: Selection, v: string, applicable: bool)
    requires Checked(m) && s.profile in m.profiles
    ensures MentionedAs(m, s, |m.profiles[s.profile]|, v, applicable)
       <==> v in m.vectors && m.vectors[v].profile == s.profile && Applies(m, s, v) == applicable
  {
    var ids := m.profiles[s.profile];
    forall r | r in m.requirements
      ensures RuleHolds(m.requirements[r].rule, s) <==> Selected(m.requirements[r].rule, s)
    {
      SelectedMeans(m.requirements[r].rule, s);
    }
    if MentionedAs(m, s, |ids|, v, applicable) {
      var i :| 0 <= i < |ids| && MentionedBy(m, s, ids[i], v, applicable);
      assert ids[i] in ids;
      assert ids[i] in m.vectors[v].requirementIds;
    }
    if v in m.vectors && m.vectors[v].profile == s.profile && Applies(m, s, v) == applicable {
      var r := m.vectors[v].requirementIds[0];
      assert r in m.vectors[v].requirementIds;
      assert r in m.requirements && m.requirements[r].profile == s.profile;
      assert r in m.profiles[s.profile];
      var i :| 0 <= i < |ids| && ids[i] == r;
      assert MentionedBy(m, s, ids[i], v, applicable);
    }
  }

  /** On a checked matrix the two lists divide the profile's vectors, so the
      conflict is never reported. */
  lemma SplitDividesProfile(m: Matrix, s: Selection, v: string)
    requires Checked(m) && s.profile in m.profiles
    ensures var split := SplitOf(m, s, |m.profiles[s.profile]|);
            && (v in split.applicable <==> v in m.vectors && m.vectors[v].profile == s.profile && Applies(m, s, v))
            && (InReasons(split.notApplicable, v) <==> v in m.vectors && m.vectors[v].profile == s.profile && !Applies(m, s, v))
  {
    SplitContents(m, s, |m.profiles[s.profile]|, v);
    MentionsMeanApplies(m, s, v, true);
    MentionsMeanApplies(m, s, v, false);
  }

  lemma NoOverlap(m: Matrix, s: Selection)
    requires Checked(m) && s.profile in m.profiles
    ensures !Overlap(SplitOf(m, s, |m.profiles[s.profile]|))
  {
    forall v
      ensures var split := SplitOf(m, s, |m.profiles[s.profile]|);
              !(v in split.applicable && InReasons(split.notApplicable, v))
    {
      SplitDividesProfile(m, s, v);
    }
  }

  lemma {:induction false} MentionAllDistinct(m: Matrix, s: Selection, split: Split, requirement: Requirement, n: nat)
    requires n <= |requirement.vectorIds| && forall v :: v in requirement.vectorIds ==> v in m.vectors
    requires Distinct(split.applicable)
    ensures Distinct(MentionAll(m, s, split, requirement, n).applicable)
  {
    if n > 0 {
      MentionAllDistinct(m, s, split, requirement, n - 1);
    }
  }

  /** No vector is listed twice, even when several requirements mention it. */
  lemma {:induction false} ApplicableDistinct(m: Matrix, s: Selection, n: nat)
    requires Linked(m) && s.profile in m.profiles && n <= |m.profiles[s.profile]|
    ensures Distinct(SplitOf(m, s, n).applicable)
  {
    if n > 0 {
      ApplicableDistinct(m, s, n - 1);
      var requirement := m.requirements[m.profiles[s.profile][n - 1]];
      MentionAllDistinct(m, s, SplitOf(m, s, n - 1), requirement, |requirement.vectorIds|);
    }
  }

  /** Selecting two sets of features makes applicable what either would. */
  lemma FeaturesDistribute(m: Matrix, s: Selection, f: set<string>, g: set<string>, v: string)
    requires Checked(m) && s.profile in m.profiles
    ensures var all := |m.profiles[s.profile]|;
            v in SplitOf(m, s.(features := f + g), all).applicable <==>
                 v in SplitOf(m, s.(features := f), all).applicable || v in SplitOf(m, s.(features := g), all).applicable
  {
    var sf, sg, sfg := s.(features := f), s.(features := g), s.(features := f + g);
    SplitDividesProfile(m, sfg, v);
    SplitDividesProfile(m, sf, v);
    SplitDividesProfile(m, sg, v);
    if v in m.vectors {
      assert forall r :: r in m.requirements ==>
                           (RuleHolds(m.requirements[r].rule, sfg) <==>
                            RuleHolds(m.requirements[r].rule, sf) || RuleHolds(m.requirements[r].rule, sg));
    }
  }

  // ----- the reasons -----

  /** Some requirement of the profile gives this reason for the vector. */
  ghost predicate GivenReason(m: Matrix, s: Selection, v: string, reason: Reason) {
    exists r :: r in m.requirements && v in m.requirements[r].vectorIds && v in m.vectors
                && Judge(m.requirements[r], m.vectors[v], s) == Some(reason)
  }

  ghost predicate ReasonsGiven(m: Matrix, s: Selection, split: Split) {
    forall i :: 0 <= i < |split.notApplicable| ==> GivenReason(m, s, split.notApplicable[i].0, split.notApplicable[i].1)
  }

  lemma {:induction false} MentionAllReasons(m: Matrix, s: Selection, split: Split, r: string, n: nat)
    requires Linked(m) && r in m.requirements && n <= |m.requirements[r].vectorIds| && ReasonsGiven(m, s, split)
    ensures ReasonsGiven(m, s, MentionAll(m, s, split, m.requirements[r], n))
  {
    if n > 0 {
      MentionAllReasons(m, s, split, r, n - 1);
      var v := m.requirements[r].vectorIds[n - 1];
      var judged := Judge(m.requirements[r], m.vectors[v], s);
      if judged.Some? {
        assert v in m.requirements[r].vectorIds;
        assert GivenReason(m, s, v, judged.value);
      }
    }
  }

  lemma {:induction false} SplitReasons(m: Matrix, s: Selection, n: nat)
    requires Linked(m) && s.profile in m.profiles && n <= |m.profiles[s.profile]|
    ensures ReasonsGiven(m, s, SplitOf(m, s, n))
  {
    if n > 0 {
      SplitReasons(m, s, n - 1);
      var r := m.profiles[s.profile][n - 1];
      MentionAllReasons(m, s, SplitOf(m, s, n - 1), r, |m.requirements[r].vectorIds|);
    }
  }

  /** On a checked matrix a vector is left out for a feature exactly when its role
      fits and its requirements ask for a feature; else it is for the role. */
  lemma ReasonMeans(m: Matrix, s: Selection, i: nat, r: string)
    requires Checked(m) && s.profile in m.profiles
    requires i < |SplitOf(m, s, |m.profiles[s.profile]|).notApplicable|
    requires var v := SplitOf(m, s, |m.profiles[s.profile]|).notApplicable[i].0;
             v in m.vectors && r in m.vectors[v].requirementIds
    ensures var (v, reason) := SplitOf(m, s, |m.profiles[s.profile]|).notApplicable[i];
            reason == FeatureNotSelected <==>
            (m.vectors[v].producerRole.Some? ==> s.producerRole == m.vectors[v].producerRole)
            && m.requirements[r].rule.Feature?
  {
    var all := |m.profiles[s.profile]|;
    SplitReasons(m, s, all);
    var (v, reason) := SplitOf(m, s, all).notApplicable[i];
    assert GivenReason(m, s, v, reason);
    var q :| q in m.requirements && v in m.requirements[q].vectorIds && v in m.vectors
             && Judge(m.requirements[q], m.vectors[v], s) == Some(reason);
    assert m.requirements[q].rule == m.requirements[r].rule;
  }
}
