/** Recovery relationships between declared actions: every commit action lists
    the actions that undo it, and every undoing action lists what it undoes. */
module Recovery {
  import opened Collections
  import opened Wrappers
  import opened Ordering

  datatype Mode = Read | DryRun | Propose | Reserve | Commit | Compensate | Revert

  datatype Reversibility = Reversible | Compensatable | Irreversible | NotApplicable

  datatype Effect = Effect(id: string, reversibility: Reversibility, external: bool)

  datatype Relationship = Relationship(mode: Mode, action: string, effects: seq<string>, window: int)

  datatype Target = Target(action: string, effects: seq<string>, window: int)

  datatype Declaration = Declaration(operation: string, mode: Mode, effects: seq<Effect>,
                                     recoveryActions: seq<Relationship>, recoveryTargets: seq<Target>,
                                     companions: seq<string>)

  type Declarations = map<string, Declaration>

  // ----- the checks on one declaration by itself -----

  predicate StateChanging(mode: Mode) { mode in {Reserve, Commit, Compensate, Revert} }

  predicate Recovering(mode: Mode) { mode in {Compensate, Revert} }

  function EffectIds(effects: seq<Effect>): (ids: seq<string>)
    ensures |ids| == |effects|
  {
    seq(|effects|, i requires 0 <= i < |effects| => effects[i].id)
  }

  /** Sorted unique non-empty strings, and at least one. */
  predicate EffectList(ids: seq<string>) {
    ids != [] && Ascending(ids) && "" !in ids
  }

  /** The first loop of `_derive_impact_actions`, as far as it concerns modes,
      effects, recovery and companions. */
  predicate WellDeclared(id: string, d: Declaration) {
    && (StateChanging(d.mode) <==> d.effects != [])
    && (d.mode != Commit ==> d.recoveryActions == [])
    && (Recovering(d.mode) <==> d.recoveryTargets != [])
    && Distinct(EffectIds(d.effects))
    && (forall r :: r in d.recoveryActions ==>
                      Recovering(r.mode) && r.action != "" && r.action != id && 1 <= r.window <= SAFE_INTEGER
                      && EffectList(r.effects) && forall e :: e in r.effects ==> e in EffectIds(d.effects))
    && Distinct(d.recoveryActions)
    && (forall t :: t in d.recoveryTargets ==>
                      t.action != "" && t.action != id && 1 <= t.window <= SAFE_INTEGER && EffectList(t.effects))
    && Distinct(d.recoveryTargets)
    && Ascending(d.companions) && "" !in d.companions && id !in d.companions
  }

  predicate AllWellDeclared(declarations: Declarations) {
    forall id :: id in declarations ==> WellDeclared(id, declarations[id])
  }

  // ----- the relations the checks are about -----

  /** Who undoes which effects of whom, how and until when. */
  datatype Edge = Edge(source: string, target: string, mode: Mode, effects: seq<string>, window: int)

  /** The edge is listed by the action it starts from. */
  ghost predicate Outbound(declarations: Declarations, e: Edge) {
    e.source in declarations
    && Relationship(e.mode, e.target, e.effects, e.window) in declarations[e.source].recoveryActions
  }

  /** The edge is listed by the action it leads to, whose mode it takes. */
  ghost predicate Inbound(declarations: Declarations, e: Edge) {
    e.target in declarations && e.mode == declarations[e.target].mode
    && Target(e.source, e.effects, e.window) in declarations[e.target].recoveryTargets
  }

  predicate HasEffect(d: Declaration, id: string, how: Reversibility) {
    exists e :: e in d.effects && e.id == id && e.reversibility == how
  }

  predicate HasInternal(d: Declaration, id: string) {
    exists e :: e in d.effects && e.id == id && !e.external
  }

  /** An edge may undo what it says it undoes. */
  ghost predicate Sound(declarations: Declarations, e: Edge) {
    && e.source in declarations && e.target in declarations
    && declarations[e.source].mode == Commit
    && declarations[e.source].operation == declarations[e.target].operation
    && forall id :: id in e.effects ==> UndoneBy(declarations[e.source], id, e.mode)
  }

  predicate UndoneBy(d: Declaration, id: string, mode: Mode) {
    if mode == Revert then HasEffect(d, id, Reversible) && HasInternal(d, id) else HasEffect(d, id, Compensatable)
  }

  ghost predicate CoveredBy(d: Declaration, id: string, mode: Mode) {
    exists r :: r in d.recoveryActions && r.mode == mode && id in r.effects
  }

  /** A commit action offers to undo exactly its reversible and compensatable
      effects, each in the right way. */
  ghost predicate FullyCovered(d: Declaration) {
    && (forall id :: HasEffect(d, id, Reversible) <==> CoveredBy(d, id, Revert))
    && forall id :: HasEffect(d, id, Compensatable) <==> CoveredBy(d, id, Compensate)
  }

  /** An action's companions are declared, for the same operation. */
  predicate CompanionsResolve(declarations: Declarations, d: Declaration) {
    forall c :: c in d.companions ==> c in declarations && declarations[c].operation == d.operation
  }

  /** The two listings are converses, every edge is sound, every commit action
      is covered and every companion resolves. */
  ghost predicate Consistent(declarations: Declarations) {
    && (forall e :: Outbound(declarations, e) <==> Inbound(declarations, e))
    && (forall e :: Outbound(declarations, e) ==> Sound(declarations, e))
    && (forall id :: id in declarations && declarations[id].mode == Commit ==> FullyCovered(declarations[id]))
    && forall id :: id in declarations ==> CompanionsResolve(declarations, declarations[id])
  }

  // ----- the checks between declarations -----

  /** effects_by_id */
  function EffectsById(effects: seq<Effect>): map<string, Effect> {
    if effects == [] then map[] else
    EffectsById(effects[..|effects| - 1])[effects[|effects| - 1].id := effects[|effects| - 1]]
  }

  lemma {:induction false} EffectLookup(effects: seq<Effect>)
    requires Distinct(EffectIds(effects))
    ensures forall id :: id in EffectsById(effects) <==> id in EffectIds(effects)
    ensures forall e :: e in effects ==> e.id in EffectsById(effects) && EffectsById(effects)[e.id] == e
    ensures forall id :: id in EffectsById(effects) ==> EffectsById(effects)[id] in effects && EffectsById(effects)[id].id == id
  {
    if effects != [] {
      var n := |effects| - 1;
      var front, last := effects[..n], effects[n];
      assert EffectIds(front) == EffectIds(effects)[..n];
      assert EffectIds(effects) == EffectIds(front) + [last.id];
      assert effects == front + [last];
      EffectLookup(front);
      assert last.id !in EffectIds(front) by {
        forall i | 0 <= i < n
          ensures EffectIds(front)[i] != last.id
        {
          assert EffectIds(effects)[i] != EffectIds(effects)[n];
        }
      }
    }
  }

  predicate RelationshipMatches(declarations: Declarations, id: string, r: Relationship)
    requires id in declarations
  {
    && r.action in declarations
    && declarations[r.action].mode == r.mode
    && declarations[r.action].operation == declarations[id].operation
    && Target(id, r.effects, r.window) in declarations[r.action].recoveryTargets
  }

  predicate TargetMatches(declarations: Declarations, id: string, t: Target)
    requires id in declarations
  {
    && t.action in declarations
    && declarations[t.action].mode == Commit
    && declarations[t.action].operation == declarations[id].operation
    && Relationship(declarations[id].mode, id, t.effects, t.window) in declarations[t.action].recoveryActions
  }

  predicate EffectMatches(effects: map<string, Effect>, id: string, mode: Mode) {
    id in effects &&
    if mode == Revert then effects[id].reversibility == Reversible && !effects[id].external
    else effects[id].reversibility == Compensatable
  }

  /** One declaration passes the second loop. */
  ghost predicate Checked(declarations: Declarations, id: string)
    requires id in declarations
  {
    var d := declarations[id];
    && CompanionsResolve(declarations, d)
    && (forall r :: r in d.recoveryActions ==>
                      RelationshipMatches(declarations, id, r) && forall e :: e in r.effects ==> UndoneBy(d, e, r.mode))
    && (d.mode == Commit ==> FullyCovered(d))
    && forall t :: t in d.recoveryTargets ==> TargetMatches(declarations, id, t)
  }

  lemma EffectMatchesMeans(d: Declaration, id: string, mode: Mode)
    requires Distinct(EffectIds(d.effects))
    ensures EffectMatches(EffectsById(d.effects), id, mode) <==> UndoneBy(d, id, mode)
  {
    EffectLookup(d.effects);
    var byId := EffectsById(d.effects);
    if UndoneBy(d, id, mode) {
      assert id in byId;
    }
    if EffectMatches(byId, id, mode) {
      assert byId[id] in d.effects && byId[id].id == id;
    }
  }

  /** The inner loops over relationships and their effects; `reversible` and
      `compensatable` collect what has been covered. */
  method CheckRelationships(declarations: Declarations, id: string)
    returns (ok: bool, reversible: set<string>, compensatable: set<string>)
    requires id in declarations && WellDeclared(id, declarations[id])
    ensures ok <==> forall r :: r in declarations[id].recoveryActions ==>
                                  RelationshipMatches(declarations, id, r) && forall e :: e in r.effects ==> UndoneBy(declarations[id], e, r.mode)
    ensures ok ==> forall e :: e in reversible <==> CoveredBy(declarations[id], e, Revert)
    ensures ok ==> forall e :: e in compensatable <==> CoveredBy(declarations[id], e, Compensate)
  {
    var d := declarations[id];
    var relationships := d.recoveryActions;
    var effects := EffectsById(d.effects);
    reversible, compensatable := {}, {};
    for i := 0 to |relationships|
      invariant forall r :: r in relationships[..i] ==>
                              RelationshipMatches(declarations, id, r) && forall e :: e in r.effects ==> UndoneBy(d, e, r.mode)
      invariant forall e :: e in reversible <==> CoveredIn(relationships[..i], e, Revert)
      invariant forall e :: e in compensatable <==> CoveredIn(relationships[..i], e, Compensate)
    {
      var r := relationships[i];
      assert r in relationships;
      assert relationships[..i + 1] == relationships[..i] + [r];
      if !RelationshipMatches(declarations, id, r) {
        return false, reversible, compensatable;
      }
      var matched := CheckEffects(d, effects, r);
      if !matched {
        return false, reversible, compensatable;
      }
      CoveredStep(relationships, i);
      if r.mode == Revert {
        reversible := reversible + (set e | e in r.effects);
      } else {
        compensatable := compensatable + (set e | e in r.effects);
      }
    }
    assert relationships[..|relationships|] == relationships;
    ok := true;
  }

  ghost predicate CoveredIn(relationships: seq<Relationship>, id: string, mode: Mode) {
    exists r :: r in relationships && r.mode == mode && id in r.effects
  }

  lemma CoveredStep(relationships: seq<Relationship>, i: nat)
    requires i < |relationships|
    ensures forall e, mode :: CoveredIn(relationships[..i + 1], e, mode) <==>
                              CoveredIn(relationships[..i], e, mode) || (mode == relationships[i].mode && e in relationships[i].effects)
  {
    assert relationships[..i + 1] == relationships[..i] + [relationships[i]];
    forall e, mode | CoveredIn(relationships[..i], e, mode) || (mode == relationships[i].mode && e in relationships[i].effects)
      ensures CoveredIn(relationships[..i + 1], e, mode)
    {
      if CoveredIn(relationships[..i], e, mode) {
        var r :| r in relationships[..i] && r.mode == mode && e in r.effects;
        assert r in relationships[..i + 1];
      } else {
        assert relationships[i] in relationships[..i + 1];
      }
    }
  }

  method CheckEffects(d: Declaration, effects: map<string, Effect>, r: Relationship) returns (ok: bool)
    requires Distinct(EffectIds(d.effects)) && effects == EffectsById(d.effects)
    ensures ok <==> forall e :: e in r.effects ==> UndoneBy(d, e, r.mode)
  {
    for i := 0 to |r.effects|
      invariant forall e :: e in r.effects[..i] ==> UndoneBy(d, e, r.mode)
    {
      EffectMatchesMeans(d, r.effects[i], r.mode);
      assert r.effects[..i + 1] == r.effects[..i] + [r.effects[i]];
      if !EffectMatches(effects, r.effects[i], r.mode) {
        assert r.effects[i] in r.effects;
        return false;
      }
    }
    assert r.effects[..|r.effects|] == r.effects;
    return true;
  }

  function WithReversibility(d: Declaration, how: Reversibility): set<string> {
    set e | e in d.effects && e.reversibility == how :: e.id
  }

  lemma CoverageSets(d: Declaration, reversible: set<string>, compensatable: set<string>)
    requires forall e :: e in reversible <==> CoveredBy(d, e, Revert)
    requires forall e :: e in compensatable <==> CoveredBy(d, e, Compensate)
    ensures FullyCovered(d) <==> WithReversibility(d, Reversible) == reversible && WithReversibility(d, Compensatable) == compensatable
  {
    assert forall id, how :: id in WithReversibility(d, how) <==> HasEffect(d, id, how);
  }

  /** The body of the second loop of `_derive_impact_actions`. */
  method CheckDeclaration(declarations: Declarations, id: string) returns (ok: bool)
    requires id in declarations && WellDeclared(id, declarations[id])
    ensures ok <==> Checked(declarations, id)
  {
    var d := declarations[id];
    if exists c :: c in d.companions && (c !in declarations || declarations[c].operation != d.operation) {
      return false;
    }
    var reversible, compensatable;
    ok, reversible, compensatable := CheckRelationships(declarations, id);
    if !ok {
      return;
    }
    if d.mode == Commit {
      CoverageSets(d, reversible, compensatable);
      if WithReversibility(d, Reversible) != reversible || WithReversibility(d, Compensatable) != compensatable {
        return false;
      }
    }
    ok := forall t :: t in d.recoveryTargets ==> TargetMatches(declarations, id, t);
  }

  /** The second loop: it accepts exactly the consistent declaration sets. */
  method CheckRecovery(declarations: Declarations, order: seq<string>) returns (ok: bool)
    requires AllWellDeclared(declarations)
    requires forall id :: id in order <==> id in declarations
    ensures ok <==> Consistent(declarations)
  {
    ChecksMeanConsistent(declarations);
    for i := 0 to |order|
      invariant forall id :: id in order[..i] ==> id in declarations && Checked(declarations, id)
    {
      var id := order[i];
      assert id in order;
      assert order[..i + 1] == order[..i] + [id];
      ok := CheckDeclaration(declarations, id);
      if !ok {
        return;
      }
    }
    assert order[..|order|] == order;
    ok := true;
  }

  // ----- what the checks achieve -----

  ghost predicate AllChecked(declarations: Declarations) {
    forall id :: id in declarations ==> Checked(declarations, id)
  }

  lemma CheckedOutbound(declarations: Declarations, e: Edge)
    requires AllWellDeclared(declarations) && AllChecked(declarations) && Outbound(declarations, e)
    ensures Inbound(declarations, e) && Sound(declarations, e)
  {
    assert WellDeclared(e.source, declarations[e.source]);
    assert Checked(declarations, e.source);
    var r := Relationship(e.mode, e.target, e.effects, e.window);
    assert RelationshipMatches(declarations, e.source, r);
  }

  lemma CheckedInbound(declarations: Declarations, e: Edge)
    requires AllWellDeclared(declarations) && AllChecked(declarations) && Inbound(declarations, e)
    ensures Outbound(declarations, e)
  {
    assert Checked(declarations, e.target);
    assert TargetMatches(declarations, e.target, Target(e.source, e.effects, e.window));
  }

  lemma ConsistentChecks(declarations: Declarations, id: string)
    requires AllWellDeclared(declarations) && Consistent(declarations) && id in declarations
    ensures Checked(declarations, id)
  {
    var d := declarations[id];
    assert WellDeclared(id, d);
    forall r | r in d.recoveryActions
      ensures RelationshipMatches(declarations, id, r) && forall e :: e in r.effects ==> UndoneBy(d, e, r.mode)
    {
      var edge := Edge(id, r.action, r.mode, r.effects, r.window);
      assert Relationship(edge.mode, edge.target, edge.effects, edge.window) == r;
      assert Outbound(declarations, edge) && Inbound(declarations, edge) && Sound(declarations, edge);
    }
    forall t | t in d.recoveryTargets
      ensures TargetMatches(declarations, id, t)
    {
      var edge := Edge(t.action, id, d.mode, t.effects, t.window);
      assert Target(edge.source, edge.effects, edge.window) == t;
      assert Inbound(declarations, edge) && Outbound(declarations, edge) && Sound(declarations, edge);
    }
  }

  lemma ChecksMeanConsistent(declarations: Declarations)
    requires AllWellDeclared(declarations)
    ensures AllChecked(declarations) <==> Consistent(declarations)
  {
    if AllChecked(declarations) {
      forall e
        ensures Outbound(declarations, e) <==> Inbound(declarations, e)
        ensures Outbound(declarations, e) ==> Sound(declarations, e)
      {
        if Outbound(declarations, e) {
          CheckedOutbound(declarations, e);
        }
        if Inbound(declarations, e) {
          CheckedInbound(declarations, e);
        }
      }
      forall id | id in declarations && declarations[id].mode == Commit
        ensures FullyCovered(declarations[id])
      {
        assert Checked(declarations, id);
      }
    }
    if Consistent(declarations) {
      forall id | id in declarations
        ensures Checked(declarations, id)
      {
        ConsistentChecks(declarations, id);
      }
    }
  }

  /** Relationship number i of an action and the one target entry it pairs with. */
  ghost predicate Pairs(declarations: Declarations, source: string, i: nat, target: string, j: nat)
    requires source in declarations && target in declarations
    requires i < |declarations[source].recoveryActions| && j < |declarations[target].recoveryTargets|
  {
    var r, t := declarations[source].recoveryActions[i], declarations[target].recoveryTargets[j];
    r.action == target && r.mode == declarations[target].mode && t == Target(source, r.effects, r.window)
  }

  /** In a consistent set every relationship has exactly one counterpart. */
  lemma RelationshipHasOneTarget(declarations: Declarations, source: string, i: nat)
    requires AllWellDeclared(declarations) && Consistent(declarations)
    requires source in declarations && i < |declarations[source].recoveryActions|
    ensures var target := declarations[source].recoveryActions[i].action;
            target in declarations
            && (exists j :: 0 <= j < |declarations[target].recoveryTargets| && Pairs(declarations, source, i, target, j))
            && forall j, k | 0 <= j < |declarations[target].recoveryTargets| && 0 <= k < |declarations[target].recoveryTargets|
              :: Pairs(declarations, source, i, target, j) && Pairs(declarations, source, i, target, k) ==> j == k
  {
    var r := declarations[source].recoveryActions[i];
    var edge := Edge(source, r.action, r.mode, r.effects, r.window);
    assert Relationship(edge.mode, edge.target, edge.effects, edge.window) == r;
    assert Outbound(declarations, edge) && Inbound(declarations, edge);
    assert WellDeclared(r.action, declarations[r.action]);
    var targets := declarations[r.action].recoveryTargets;
    var j :| 0 <= j < |targets| && targets[j] == Target(source, r.effects, r.window);
    assert Pairs(declarations, source, i, r.action, j);
  }

  /** And every target entry has exactly one. */
  lemma TargetHasOneRelationship(declarations: Declarations, target: string, j: nat)
    requires AllWellDeclared(declarations) && Consistent(declarations)
    requires target in declarations && j < |declarations[target].recoveryTargets|
    ensures var source := declarations[target].recoveryTargets[j].action;
            source in declarations
            && (exists i :: 0 <= i < |declarations[source].recoveryActions| && Pairs(declarations, source, i, target, j))
            && forall i, k | 0 <= i < |declarations[source].recoveryActions| && 0 <= k < |declarations[source].recoveryActions|
              :: Pairs(declarations, source, i, target, j) && Pairs(declarations, source, k, target, j) ==> i == k
  {
    var t := declarations[target].recoveryTargets[j];
    var edge := Edge(t.action, target, declarations[target].mode, t.effects, t.window);
    assert Target(edge.source, edge.effects, edge.window) == t;
    assert Inbound(declarations, edge) && Outbound(declarations, edge);
    assert WellDeclared(t.action, declarations[t.action]);
    var relationships := declarations[t.action].recoveryActions;
    var i :| 0 <= i < |relationships| && relationships[i] == Relationship(edge.mode, target, t.effects, t.window);
    assert Pairs(declarations, t.action, i, target, j);
  }

  /** What undoes an action is not itself undone by anything. */
  lemma RecoveryNeverChains(declarations: Declarations, e: Edge, f: Edge)
    requires AllWellDeclared(declarations) && Consistent(declarations)
    requires Outbound(declarations, e) && Outbound(declarations, f)
    ensures e.target != f.source
    ensures declarations[e.source].mode == Commit && e.target in declarations && Recovering(declarations[e.target].mode)
  {
    assert Inbound(declarations, e) && Sound(declarations, e) && Sound(declarations, f);
    assert WellDeclared(e.target, declarations[e.target]);
    assert declarations[e.target].recoveryTargets != [];
  }

  /** A commit action with a reversible effect that leaves the application is
      never accepted: covering it would need a revert, which is internal only. */
  lemma ReversibleIsInternal(declarations: Declarations, id: string, effect: Effect)
    requires AllWellDeclared(declarations) && Consistent(declarations)
    requires id in declarations && declarations[id].mode == Commit
    requires effect in declarations[id].effects && effect.reversibility == Reversible
    ensures !effect.external
  {
    var d := declarations[id];
    assert WellDeclared(id, d);
    assert HasEffect(d, effect.id, Reversible);
    assert FullyCovered(d) && CoveredBy(d, effect.id, Revert);
    var r :| r in d.recoveryActions && r.mode == Revert && effect.id in r.effects;
    var edge := Edge(id, r.action, r.mode, r.effects, r.window);
    assert Relationship(edge.mode, edge.target, edge.effects, edge.window) == r;
    assert Outbound(declarations, edge) && Sound(declarations, edge);
    assert UndoneBy(d, effect.id, Revert);
    EffectLookup(d.effects);
  }
}
