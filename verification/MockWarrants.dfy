/** What a call must show before an action takes effect, is dispatched or
    forwarded, or a Grant is issued, whatever the role. */
module MockWarrants {
  import opened Wrappers
  import opened JsonDiff
  import opened MockNames
  import opened MockState
  import opened MockRoles
  import opened MockLedger
  import Observations

  // ----- what a plan does -----

  /** What a call does, if it does not raise: an action takes effect or is
      dispatched, a Grant is issued, stored or revoked, a request is forwarded, a
      session fenced, a manifest published, an event delivered, a proposal
      revised, a retry scheduled. */
  datatype Deeds = Deeds(effects: bool, dispatches: bool, issues: bool, stores: bool, revokes: bool, forwards: bool,
                         fences: bool, publishes: bool, delivers: bool, revises: bool, retries: bool)

  function Nothing(): Deeds { Deeds(false, false, false, false, false, false, false, false, false, false, false) }

  function Done(p: Plan): Deeds
    requires p.Plan?
  {
    var names := p.changes.bumped;
    Deeds(ActionEffectCount in names, ActionDispatchCount in names, GrantIssuedCount in names,
          RuntimeStoredGrantWidth in names, RevocationEffectiveCount in names, AdapterForwardedCount in names,
          PurposeBindingSessionFenceCount in names, ManifestAcceptedCount in names,
          OperationalEventFirstDeliveryCount in names, ApplicationProposalRevision in names, RuntimeRetryCount in names)
  }

  /** A kind of deed. */
  datatype Deed = Effect | Dispatch | Issue | Storage | Revocation | Forward | Fence | Publication | Delivery | Revision | Retry

  function CounterFor(deed: Deed): StateName {
    match deed
    case Effect => ActionEffectCount
    case Dispatch => ActionDispatchCount
    case Issue => GrantIssuedCount
    case Forward => AdapterForwardedCount
    case Fence => PurposeBindingSessionFenceCount
    case Revocation => RevocationEffectiveCount
    case Storage => RuntimeStoredGrantWidth
    case Publication => ManifestAcceptedCount
    case Delivery => OperationalEventFirstDeliveryCount
    case Revision => ApplicationProposalRevision
    case Retry => RuntimeRetryCount
  }

  predicate Includes(deeds: Deeds, deed: Deed) {
    match deed
    case Effect => deeds.effects
    case Dispatch => deeds.dispatches
    case Issue => deeds.issues
    case Forward => deeds.forwards
    case Fence => deeds.fences
    case Revocation => deeds.revokes
    case Storage => deeds.stores
    case Publication => deeds.publishes
    case Delivery => deeds.delivers
    case Revision => deeds.revises
    case Retry => deeds.retries
  }

  /** A plan does exactly these deeds; one that raises does none. */
  predicate Does(p: Plan, deeds: Deeds) { deeds == if p.Plan? then Done(p) else Nothing() }

  lemma QuietDoesNothing(p: Plan)
    requires p.Plan? ==> p.changes == Quiet()
    ensures Does(p, Nothing())
  {}

  // ----- purposes -----

  /** The records looked up are the Grant's: its purpose, and a task exactly if one
      is bound, of that purpose. */
  predicate Resolves(p: Purpose) {
    && p.purpose.reference == p.grant.purpose
    && (p.task.Some? <==> p.grant.task.Some?)
    && (p.task.Some? ==> p.task.value.reference == p.grant.task.value && p.task.value.parent == p.grant.purpose)
  }

  /** The purpose, or its task if there is one, is in this condition. */
  predicate SomeIs(p: Purpose, condition: Condition) {
    p.purpose.condition == condition || (p.task.Some? && p.task.value.condition == condition)
  }

  predicate AllActive(p: Purpose) {
    p.purpose.condition == Active && (p.task.Some? ==> p.task.value.condition == Active)
  }

  predicate AllAllow(p: Purpose) { p.purpose.allows && (p.task.Some? ==> p.task.value.allows) }

  /** What the current condition is: the gravest of the two, and no policy counts
      unless both are active. */
  lemma CurrentPurposeMeans(p: Purpose)
    ensures CurrentPurpose(p).Some? <==> Resolves(p)
    ensures Resolves(p) ==>
              CurrentPurpose(p).value ==
              if SomeIs(p, Terminal) then (Terminal, false)
              else if SomeIs(p, Unavailable) then (Unavailable, false)
              else if SomeIs(p, Suspended) then (Suspended, false)
              else (Active, AllAllow(p))
    ensures AllActive(p) <==> !SomeIs(p, Terminal) && !SomeIs(p, Unavailable) && !SomeIs(p, Suspended)
  {
    if Resolves(p) && p.task.Some? {
      CombinedMeans([p.purpose.condition, p.task.value.condition], AllAllow(p));
    } else {
      CombinedMeans([p.purpose.condition], p.purpose.allows);
    }
  }

  lemma CombinedMeans(conditions: seq<Condition>, allows: bool)
    ensures Combined(conditions, allows) ==
            if Terminal in conditions then (Terminal, false)
            else if Unavailable in conditions then (Unavailable, false)
            else if Suspended in conditions then (Suspended, false)
            else (Active, allows)
  {}

  /** A look-up for the session at hand, of the Grant's own records. */
  predicate LooksUpRecords(purpose: Option<Purpose>, st: State, requireSession: bool) {
    && purpose.Some? && (requireSession ==> purpose.value.session == purpose.value.grant)
    && Resolves(purpose.value) && Countable(st, PurposeBindingResolutionCount)
  }

  /** They are active and policy allows. */
  predicate PurposeAdmits(purpose: Option<Purpose>, st: State, requireSession: bool) {
    && LooksUpRecords(purpose, st, requireSession) && AllActive(purpose.value) && AllAllow(purpose.value)
    && Countable(st, PurposeBindingPolicyEvaluationCount)
  }

  /** They are active and policy denies. */
  predicate PurposeDenies(purpose: Option<Purpose>, st: State, requireSession: bool) {
    && LooksUpRecords(purpose, st, requireSession) && AllActive(purpose.value) && !AllAllow(purpose.value)
    && Countable(st, PurposeBindingPolicyEvaluationCount)
  }

  /** They are not active any more. */
  predicate PurposeLapsed(purpose: Option<Purpose>, st: State, requireSession: bool) {
    LooksUpRecords(purpose, st, requireSession) && !AllActive(purpose.value)
  }

  lemma AdmissionMeans(p: Purpose, st: State, requireSession: bool)
    ensures var standing := PreAdmission(p, st, requireSession).1;
            && (standing == Admitted <==> PurposeAdmits(Some(p), st, requireSession))
            && (standing == Denied <==> PurposeDenies(Some(p), st, requireSession))
            && (standing.Inactive? <==> PurposeLapsed(Some(p), st, requireSession))
            && (standing == Inactive(Terminal) <==> PurposeLapsed(Some(p), st, requireSession) && SomeIs(p, Terminal))
  {
    CurrentPurposeMeans(p);
  }

  // ----- the Action Executor -----

  /** Proof and Grant of an invocation. */
  predicate InOrder(grant: Document, execution: Document) {
    && Is(execution, "normalization", "fixed_point")
    && Agree(execution, "sender_credential_audience", "bound_credential_audience")
    && Agree(execution, "proof_session_binding", "bound_session_binding")
    && Agree(grant, "claimed_issuer", "issuer")
    && Is(grant, "status", "active") && !Is(grant, "revocation_state", "revoked")
    && Agree(execution, "runtime_identity", "bound_runtime_identity") && Is(execution, "attestation", "current")
  }

  /** Everything an invocation must show, in whatever order it is looked at. */
  predicate MayTakeEffect(k: Checks, d: Document, st: State, grant: Document, execution: Document) {
    && InOrder(grant, execution)
    && ("purpose_binding" in d ==> PurposeAdmits(k.purpose(d), st, true) && k.purpose(d).value.informational)
    && AllowedNow(d, execution)
  }

  predicate CapacityLeft(operational: Document) {
    Is(operational, "limiter_state", "available") && Is(operational, "action_capacity", "available")
  }

  lemma FaultsMean(grant: Document, execution: Document)
    ensures ProofFault(execution).None? <==>
            Is(execution, "normalization", "fixed_point")
            && Agree(execution, "sender_credential_audience", "bound_credential_audience")
            && Agree(execution, "proof_session_binding", "bound_session_binding")
    ensures GrantFault(grant, execution).None? <==>
            Agree(grant, "claimed_issuer", "issuer")
            && Is(grant, "status", "active") && !Is(grant, "revocation_state", "revoked")
            && Agree(execution, "runtime_identity", "bound_runtime_identity") && Is(execution, "attestation", "current")
  {}

  lemma ProofFaultDoesNothing(execution: Document)
    ensures ProofFault(execution).Some? ==> Does(ProofFault(execution).value, Nothing())
  {}

  lemma GrantFaultDoesNothing(grant: Document, execution: Document)
    ensures GrantFault(grant, execution).Some? ==> Does(GrantFault(grant, execution).value, Nothing())
  {}

  /** It executes an action exactly on a condition, and does nothing else. */
  predicate Executes(p: Plan, condition: bool) { Does(p, Nothing().(effects := condition, dispatches := condition)) }

  lemma InvokedWithinDoes(l: Looked)
    ensures Executes(InvokedWithin(l), true)
  {}

  lemma WithinDoes(operational: Document, l: Looked)
    ensures Executes(InvokeWithin(operational, l), CapacityLeft(operational))
  {
    if CapacityLeft(operational) {
      InvokedWithinDoes(l);
    } else {
      QuietDoesNothing(InvokeWithin(operational, l));
    }
  }

  lemma InvokedDoes(l: Looked, bound: bool)
    ensures Executes(Invoked(l, bound), true)
  {
    EffectsDo(Invoked(l, bound));
  }

  lemma DenialDoesNothing(d: Document, execution: Document, l: Looked, bound: bool)
    requires !Is(execution, "policy", "allow")
    ensures Does(InvokeChecked(d, execution, l, bound), Nothing())
  {}

  /** The conditions that do not concern the purpose, as far as they come last. */
  predicate AllowedNow(d: Document, execution: Document) {
    && Is(execution, "policy", "allow")
    && (Field(d, "operational") != JNull ==>
          Section(d, "operational").Some? && CapacityLeft(Section(d, "operational").value))
  }

  lemma CheckedDoes(d: Document, execution: Document, l: Looked, bound: bool)
    ensures Executes(InvokeChecked(d, execution, l, bound), AllowedNow(d, execution))
  {
    if !Is(execution, "policy", "allow") {
      DenialDoesNothing(d, execution, l, bound);
    } else if Field(d, "operational") == JNull {
      InvokedDoes(l, bound);
    } else if Section(d, "operational").Some? {
      WithinDoes(Section(d, "operational").value, l);
    }
  }

  /** A fence, which for a terminal purpose comes with a revocation. */
  function Fencing(fences: bool, terminal: bool): Deeds { Nothing().(fences := fences, revokes := fences && terminal) }

  lemma FencedDoes(l: Looked, terminal: bool, decision: Decision, tail: seq<Token>, error: AspError)
    requires Tail(tail) && error != RiskDenied
    ensures Does(Fenced(l, terminal, decision, tail, error), Fencing(true, terminal))
  {}

  lemma RefusedDoes(l: Looked, standing: Standing)
    requires standing != Admitted
    ensures Does(InvokeRefused(l, standing), Fencing(standing.Inactive?, standing == Inactive(Terminal)))
  {
    if standing.Inactive? {
      FencedDoes(l, standing.condition == Terminal, Rejected, [ActionRejected], ConditionError(standing.condition));
    } else {
      QuietDoesNothing(InvokeRefused(l, standing));
    }
  }

  /** An invocation shows that its purpose has lapsed. */
  predicate ShowsLapse(k: Checks, d: Document, st: State) { "purpose_binding" in d && PurposeLapsed(k.purpose(d), st, true) }

  /** What an invocation whose grant and proof are in order does. */
  function Invoking(effects: bool, lapsed: bool, terminal: bool): Deeds {
    Nothing().(effects := effects, dispatches := effects, fences := lapsed, revokes := lapsed && terminal)
  }

  lemma PurposeDoes(k: Checks, d: Document, st: State, execution: Document)
    ensures Does(InvokeForPurpose(k, d, st, execution),
                 Invoking(("purpose_binding" in d ==> PurposeAdmits(k.purpose(d), st, true) && k.purpose(d).value.informational)
                          && AllowedNow(d, execution),
                          ShowsLapse(k, d, st), ShowsLapse(k, d, st) && SomeIs(k.purpose(d).value, Terminal)))
  {
    var plan := InvokeForPurpose(k, d, st, execution);
    if "purpose_binding" !in d {
      CheckedDoes(d, execution, {}, false);
    } else if k.purpose(d).None? {
      QuietDoesNothing(plan);
    } else {
      var p := k.purpose(d).value;
      var (l, standing) := PreAdmission(p, st, true);
      AdmissionMeans(p, st, true);
      if standing != Admitted {
        RefusedDoes(l, standing);
      } else if !p.informational {
        QuietDoesNothing(plan);
      } else {
        CheckedDoes(d, execution, l, true);
      }
    }
  }

  lemma InvokeDoes(k: Checks, d: Document, st: State, grant: Document, execution: Document)
    ensures var fences := InOrder(grant, execution) && ShowsLapse(k, d, st);
            Does(Invoke(k, d, st, grant, execution),
                 Invoking(MayTakeEffect(k, d, st, grant, execution), fences,
                          fences && SomeIs(k.purpose(d).value, Terminal)))
  {
    PurposeDoes(k, d, st, execution);
    FaultsMean(grant, execution);
    ProofFaultDoesNothing(execution);
    GrantFaultDoesNothing(grant, execution);
  }

  /** A completed action is not executed again, and the rest takes effect whether
      or not its result validates. */
  predicate MayExecuteMcp(k: Checks, d: Document) { k.mcp(d, Admission).Some? && !Completed(k.mcp(d, Admission).value) }

  /** The binding is used for a completed action's replay. */
  predicate Completed(mcp: Document) {
    && "binding_view_use" in mcp
    && mcp["binding_view_use"] in {JStr("current_completed_replay"), JStr("retained_completed_replay")}
  }

  lemma EffectsDo(p: Plan)
    requires p.Plan? && p.changes == Effects()
    ensures Executes(p, true)
  {}

  lemma ExecutedDoes(replays: bool, validated: bool)
    ensures Executes(Executed(replays, validated), !replays)
  {
    if replays {
      QuietDoesNothing(Executed(replays, validated));
    } else {
      EffectsDo(TakenEffect(validated));
    }
  }

  lemma ExecuteMcpDoes(k: Checks, d: Document)
    ensures Executes(ExecuteMcp(k, d), MayExecuteMcp(k, d))
  {
    if k.mcp(d, Admission).Some? {
      ExecutedDoes(Replays(k.mcp(d, Admission).value), k.mcp(d, Returning).Some?);
    }
  }

  /** An answered edit or redline that is not replayed. */
  predicate MayRevise(k: Checks, d: Document) {
    && k.elicitation(d).Some?
    && var e := k.elicitation(d).value;
    && e.kind in {"edit", "redline"} && e.disposition == "answered" && !e.terminalReplay
  }

  lemma CandidateDoes(k: Checks, d: Document)
    ensures Does(ApplyCandidate(k, d), Nothing().(revises := MayRevise(k, d)))
  {}

  lemma BindDoesNothing(k: Checks, d: Document)
    ensures Does(BindHttpCapacity(k, d), Nothing())
  {}

  predicate MayDeliver(d: Document) {
    && Section(d, "operational").Some?
    && Is(Section(d, "operational").value, "limiter_state", "available")
    && Is(Section(d, "operational").value, "event_capacity", "available")
  }

  lemma DeliveredDoes()
    ensures Does(Delivered(), Nothing().(delivers := true))
  {}

  lemma QueuedDoesNothing()
    ensures Does(Queued(), Nothing())
  {}

  lemma DeliverDoes(d: Document)
    ensures Does(Deliver(d), Nothing().(delivers := MayDeliver(d)))
  {
    DeliveredDoes();
    QueuedDoesNothing();
  }

  lemma RetransmitDoesNothing(d: Document)
    ensures Does(Retransmit(d), Nothing())
  {}

  /** A replay fences the session also when policy denies. */
  lemma ReplayDoes(k: Checks, d: Document, st: State, execution: Document)
    ensures var fences := "purpose_binding" in d && (PurposeLapsed(k.purpose(d), st, true) || PurposeDenies(k.purpose(d), st, true));
            Does(Replay(k, d, st, execution), Fencing(fences, fences && SomeIs(k.purpose(d).value, Terminal)))
  {
    if "purpose_binding" !in d {
      ReplayCheckedDoesNothing(d, execution, {});
    } else if k.purpose(d).None? {
      QuietDoesNothing(Replay(k, d, st, execution));
    } else {
      var p := k.purpose(d).value;
      var (l, standing) := PreAdmission(p, st, true);
      AdmissionMeans(p, st, true);
      CurrentPurposeMeans(p);
      ReplayStandingDoes(d, execution, l, standing);
    }
  }

  lemma ReplayStandingDoes(d: Document, execution: Document, l: Looked, standing: Standing)
    ensures Does(ReplayStanding(d, execution, l, standing),
                 Fencing(standing.Inactive? || standing == Denied, standing == Inactive(Terminal)))
  {
    if standing.Inactive? {
      FencedDoes(l, standing.condition == Terminal, Rejected, [ActionRejected, RetrySuppressed], ConditionError(standing.condition));
    } else if standing == Denied {
      FencedDoes(l, false, Rejected, [ActionRejected, RetrySuppressed], PurposeBindingDenied);
    } else if standing == Admitted {
      ReplayCheckedDoesNothing(d, execution, l);
    } else {
      QuietDoesNothing(ReplayStanding(d, execution, l, standing));
    }
  }

  lemma ReplayCheckedDoesNothing(d: Document, execution: Document, l: Looked)
    ensures Does(ReplayChecked(d, execution, l), Nothing())
  {}

  /** What the Action Executor does. */
  function ExecutorDeeds(k: Checks, op: Operation, d: Document, st: State, grant: Document, execution: Document): Deeds {
    match op
    case InvokeAction =>
      var fences := InOrder(grant, execution) && ShowsLapse(k, d, st);
      Invoking(MayTakeEffect(k, d, st, grant, execution), fences, fences && SomeIs(k.purpose(d).value, Terminal))
    case ExecuteMcpAction => Nothing().(effects := MayExecuteMcp(k, d), dispatches := MayExecuteMcp(k, d))
    case ReplayAction =>
      var fences := "purpose_binding" in d && (PurposeLapsed(k.purpose(d), st, true) || PurposeDenies(k.purpose(d), st, true));
      Fencing(fences, fences && SomeIs(k.purpose(d).value, Terminal))
    case ApplyHumanElicitationCandidate => Nothing().(revises := MayRevise(k, d))
    case DeliverEvent => Nothing().(delivers := MayDeliver(d))
    case _ => Nothing()
  }

  lemma ActionDoes(k: Checks, op: Operation, d: Document, st: State)
    requires Section(d, "grant").Some? && Section(d, "execution").Some?
    ensures Does(Action(k, op, d, st), ExecutorDeeds(k, op, d, st, Section(d, "grant").value, Section(d, "execution").value))
  {
    var grant, execution := Section(d, "grant").value, Section(d, "execution").value;
    ActionPlanDoes(k, op, d, st, grant, execution);
    assert Action(k, op, d, st) == ActionPlan(k, op, d, st, grant, execution);
  }

  lemma ActionPlanDoes(k: Checks, op: Operation, d: Document, st: State, grant: Document, execution: Document)
    ensures Does(ActionPlan(k, op, d, st, grant, execution), ExecutorDeeds(k, op, d, st, grant, execution))
  {
    match op
    case ExecuteMcpAction => ExecuteMcpDoes(k, d);
    case ApplyHumanElicitationCandidate => CandidateDoes(k, d);
    case ReplayAction => ReplayDoes(k, d, st, execution);
    case InvokeAction => InvokeDoes(k, d, st, grant, execution);
    case BindHttpCapacityResponse => BindDoesNothing(k, d);
    case DeliverEvent => DeliverDoes(d);
    case RetransmitEvent => RetransmitDoesNothing(d);
    case _ =>
  }

  // ----- the Grant Issuer -----

  /** Everything an issuance must show. */
  predicate MayIssue(k: Checks, d: Document, st: State, surface: Document, grant: Document) {
    && Is(surface, "status", "current")
    && ("purpose_binding" in d ==> (PurposeAdmits(k.purpose(d), st, false) && Consented(k.purpose(d).value)
                                    && Attenuates(k.purpose(d).value)))
    && WithinPassport(grant)
  }

  predicate WithinPassport(grant: Document) {
    && RequestedOnly(grant, false)
    && Is(grant, "companion_closure", "closed") && Is(grant, "passport_status", "current")
  }

  /** A list of the Grant; an MCP Grant may leave it out. */
  function ListAt(grant: Document, name: string, optional: bool): Option<seq<Json>> {
    if name !in grant then (if optional then Some([]) else None)
    else match grant[name] case JArr(items) => Some(items) case _ => None
  }

  predicate Scalars(list: seq<Json>) { forall i :: 0 <= i < |list| ==> !list[i].JArr? && !list[i].JObj? }

  /** Every issued action is one of those requested. */
  predicate RequestedOnly(grant: Document, optional: bool) {
    var issued, requested := ListAt(grant, "issued_actions", optional), ListAt(grant, "requested_actions", optional);
    && issued.Some? && requested.Some? && Scalars(issued.value) && Scalars(requested.value)
    && forall i :: 0 <= i < |issued.value| ==> Listed(issued.value[i], requested.value)
  }

  predicate Listed(x: Json, list: seq<Json>) { exists y :: y in list && Observations.PyEqual(x, y) }

  lemma IssuedWithinMeans(grant: Document, optional: bool)
    ensures IssuedWithin(grant, optional) == Some(true) <==> RequestedOnly(grant, optional)
  {
    var issued, requested := ListAt(grant, "issued_actions", optional), ListAt(grant, "requested_actions", optional);
    if issued.Some? && requested.Some? {
      SubsetMeans(issued.value, requested.value);
      assert IssuedWithin(grant, optional) == SubsetOf(issued.value, requested.value);
    } else {
      assert IssuedWithin(grant, optional) == None;
    }
  }

  lemma SubsetMeans(xs: seq<Json>, ys: seq<Json>)
    ensures SubsetOf(xs, ys) == Some(true)
       <==> Scalars(xs) && Scalars(ys) && forall i :: 0 <= i < |xs| ==> Listed(xs[i], ys)
  {
    ScalarsAreHashable(xs);
    ScalarsAreHashable(ys);
    if forall x :: x in xs ==> exists y :: y in ys && Equal(x, y) {
      forall i | 0 <= i < |xs|
        ensures Listed(xs[i], ys)
      {
        assert xs[i] in xs;
        var y :| y in ys && Equal(xs[i], y);
      }
    }
    if forall i :: 0 <= i < |xs| ==> Listed(xs[i], ys) {
      forall x | x in xs
        ensures exists y :: y in ys && Equal(x, y)
      {
        var i :| 0 <= i < |xs| && xs[i] == x;
        var y :| y in ys && Observations.PyEqual(xs[i], y);
        assert Equal(x, y);
      }
    }
  }

  lemma ScalarsAreHashable(list: seq<Json>)
    ensures Scalars(list) <==> !(exists x :: x in list && !Hashable(x))
  {
    if !Scalars(list) {
      var i :| 0 <= i < |list| && (list[i].JArr? || list[i].JObj?);
      assert list[i] in list && !Hashable(list[i]);
    }
  }

  /** What was requested was consented to, granted and returned, by parties ready
      for it, within its lifetime. */
  predicate Consented(p: Purpose) {
    && p.request == p.consent == p.grant == p.returned
    && p.advertised && p.ready && p.withinLifetime && p.linked
  }

  /** The Grant's binding is its parent's, or its parent's with a task, and is
      declared as what it is. */
  predicate Attenuates(p: Purpose) {
    || (p.grant == p.parent && p.attenuation == SameBinding)
    || (p.grant.purpose == p.parent.purpose && p.parent.task.None? && p.grant.task.Some? && p.attenuation == Narrower)
  }

  lemma ClosedIssuanceMeans(p: Purpose)
    ensures ClosedIssuance(p) <==> Consented(p) && Attenuates(p)
    ensures ConfirmedReturn(p) <==> Consented(p)
  {}

  predicate IssuesWhen(p: Plan, condition: bool) { Does(p, Nothing().(issues := condition)) }

  lemma IssueCheckedDoes(grant: Document, l: Looked, bound: bool)
    ensures IssuesWhen(IssueChecked(grant, l, bound), WithinPassport(grant))
  {
    IssuedWithinMeans(grant, false);
  }

  lemma IssueStandingDoes(grant: Document, l: Looked, standing: Standing)
    ensures IssuesWhen(IssueStanding(grant, l, standing), standing == Admitted && WithinPassport(grant))
  {
    IssueCheckedDoes(grant, l, true);
  }

  lemma IssueForPurposeDoes(purpose: Option<Purpose>, st: State, grant: Document)
    ensures IssuesWhen(IssueForPurpose(purpose, st, grant),
                       PurposeAdmits(purpose, st, false) && Consented(purpose.value) && Attenuates(purpose.value)
                       && WithinPassport(grant))
  {
    if purpose.Some? {
      ClosedIssuanceMeans(purpose.value);
      var (l, standing) := PreAdmission(purpose.value, st, false);
      AdmissionMeans(purpose.value, st, false);
      IssueStandingDoes(grant, l, standing);
    }
  }

  lemma IssueDoes(k: Checks, d: Document, st: State, surface: Document, grant: Document)
    ensures IssuesWhen(IssueGrantPlan(k, d, st, surface, grant), MayIssue(k, d, st, surface, grant))
  {
    IssueCheckedDoes(grant, {}, false);
    IssueForPurposeDoes(k.purpose(d), st, grant);
  }

  predicate MayRevoke(grant: Document) {
    && Agree(grant, "revocation_request_hash", "recorded_revocation_request_hash")
    && !Is(grant, "status", "revoked") && !Is(grant, "revocation_state", "revoked")
  }

  lemma RevokeDoes(grant: Document)
    ensures Does(Revoke(grant), Nothing().(revokes := MayRevoke(grant)))
  {
    if MayRevoke(grant) {
      RevokedDoes(RevocationTokens());
    } else if Agree(grant, "revocation_request_hash", "recorded_revocation_request_hash") {
      QuietDoesNothing(Revoke(grant));
    }
  }

  lemma RevokedDoes(tokens: seq<Token>)
    requires Reportable(tokens) && Uneventful(tokens)
    ensures Does(RevokedReply(tokens), Nothing().(revokes := true))
  {}

  predicate MayIssueMcp(k: Checks, d: Document, surface: Document, grant: Document) {
    && k.mcp(d, Issuance).Some? && Is(surface, "status", "current")
    && Is(grant, "passport_status", "current") && Is(grant, "companion_closure", "closed")
    && RequestedOnly(grant, true)
  }

  lemma IssueMcpDoes(k: Checks, d: Document, surface: Document, grant: Document)
    ensures Does(IssueMcp(k, d, surface, grant), Nothing().(issues := MayIssueMcp(k, d, surface, grant)))
  {
    IssuedWithinMeans(grant, true);
  }

  function IssuerDeeds(k: Checks, op: Operation, d: Document, st: State, surface: Document, grant: Document): Deeds {
    match op
    case IssueGrant => Nothing().(issues := MayIssue(k, d, st, surface, grant))
    case IssueMcpGrant => Nothing().(issues := MayIssueMcp(k, d, surface, grant))
    case RevokeGrant => Nothing().(revokes := MayRevoke(grant))
    case _ => Nothing()
  }

  lemma GrantDoes(k: Checks, op: Operation, d: Document, st: State)
    requires Section(d, "surface").Some? && Section(d, "grant").Some?
    ensures Does(Grant(k, op, d, st), IssuerDeeds(k, op, d, st, Section(d, "surface").value, Section(d, "grant").value))
  {
    GrantPlanDoes(k, op, d, st, Section(d, "surface").value, Section(d, "grant").value);
  }

  lemma GrantPlanDoes(k: Checks, op: Operation, d: Document, st: State, surface: Document, grant: Document)
    ensures Does(GrantPlan(k, op, d, st, surface, grant), IssuerDeeds(k, op, d, st, surface, grant))
  {
    match op
    case IssueMcpGrant => IssueMcpDoes(k, d, surface, grant);
    case IssueGrant => IssueDoes(k, d, st, surface, grant);
    case RevokeGrant => RevokeDoes(grant);
    case _ =>
  }

  // ----- the Runtime Mediator -----

  /** A mediated MCP action is dispatched unless it replays a completed one. */
  predicate MayDispatchMcp(k: Checks, d: Document) { k.mcp(d, PreDispatch).Some? && !Completed(k.mcp(d, PreDispatch).value) }

  function MediatorDeeds(k: Checks, op: Operation, d: Document, st: State, grant: Document, execution: Document,
                         runtime: Document): Deeds {
    match op
    case MediateMcpAction => Nothing().(dispatches := MayDispatchMcp(k, d), stores := MayDispatchMcp(k, d))
    case MediateAction => Nothing().(dispatches := MayForward(d, grant, runtime), stores := MayForward(d, grant, runtime))
    case MediateGrant =>
      var fences := ReturnLapsed(k, d, st, grant);
      Fencing(fences, fences && SomeIs(k.purpose(d).value, Terminal)).(stores := MayStore(k, d, st, grant, runtime))
    case HandleCapacityResponse => Nothing().(retries := MayRetry(d, execution))
    case HandleHttpCapacityResponse => Nothing().(retries := BoundToHttp(k, d) && MayRetry(d, execution))
    case _ => Nothing()
  }

  /** A Grant is returned as granted, to a runtime that can use it. */
  predicate MayStore(k: Checks, d: Document, st: State, grant: Document, runtime: Document) {
    && Agree(grant, "claimed_issuer", "issuer")
    && ("purpose_binding" in d ==> (PurposeAdmits(k.purpose(d), st, true) && Consented(k.purpose(d).value)
                                    && k.purpose(d).value.informational))
    && Usable(runtime)
  }

  /** A capacity error is repeated only if it says so, its outcome is known where
      it must be, capacity has been confirmed where it must be, and a limit's
      delay, if it has one, is a positive number of seconds. */
  predicate MayRetry(d: Document, execution: Document) {
    && Section(d, "operational").Some?
    && var operational := Section(d, "operational").value;
    && Section(operational, "capacity_response").Some?
    && var response := Section(operational, "capacity_response").value;
    && Field(response, "retryable") == JBool(true)
    && match Field(response, "code")
       case JStr("rate_limited") => Field(response, "limit") == JNull || WithDelay(Field(response, "limit"))
       case JStr("capacity_state_unavailable") => "limit" !in response && Is(operational, "limiter_state", "available")
       case JStr("service_unavailable") => "limit" !in response && Is(execution, "outcome_state", "known")
       case _ => false
  }

  predicate WithDelay(limit: Json) {
    && limit.JObj?
    && var delay := Field(limit.members, "retry_after_seconds");
    delay == JNull || (delay.JInt? && delay.i > 0)
  }

  /** A Grant is returned as consented, but its purpose has lapsed since. */
  predicate ReturnLapsed(k: Checks, d: Document, st: State, grant: Document) {
    && Agree(grant, "claimed_issuer", "issuer") && "purpose_binding" in d
    && PurposeLapsed(k.purpose(d), st, true) && Consented(k.purpose(d).value)
  }

  /** Policy, currentness and path of a mediated action; under operational limits
      it is only planned. */
  predicate MayForward(d: Document, grant: Document, runtime: Document) {
    && Is(runtime, "credential_release", "none")
    && Is(runtime, "revocation_state", "current") && !Is(grant, "revocation_state", "unknown")
    && Is(runtime, "remote_path", "known") && Is(runtime, "training_policy", "exact")
    && Field(d, "operational") == JNull
  }

  lemma MediateMcpDoes(k: Checks, d: Document)
    ensures Does(MediateMcp(k, d), Nothing().(dispatches := MayDispatchMcp(k, d), stores := MayDispatchMcp(k, d)))
  {
    if k.mcp(d, PreDispatch).Some? {
      MediatedDoes(Replays(k.mcp(d, PreDispatch).value), k.mcp(d, Returning).Some?);
    } else {
      QuietDoesNothing(MediateMcp(k, d));
    }
  }

  lemma MediatedDoes(replays: bool, validated: bool)
    ensures Does(Mediated(replays, validated), Nothing().(dispatches := !replays, stores := !replays))
  {}

  lemma MediateActionDoes(d: Document, grant: Document, runtime: Document)
    ensures Does(MediateActionPlan(d, grant, runtime),
                 Nothing().(dispatches := MayForward(d, grant, runtime), stores := MayForward(d, grant, runtime)))
  {}

  lemma SimulateDoesNothing(k: Checks, d: Document)
    ensures Does(Simulate(k, d), Nothing())
  {}

  lemma RenderDoesNothing(k: Checks, d: Document)
    ensures Does(RenderRisk(k, d), Nothing())
  {}

  lemma AnswerDoesNothing(answered: bool, kind: string, revision: Json)
    ensures Does(Answer(answered, kind, revision), Nothing())
  {}

  lemma ElicitationDoesNothing(k: Checks, d: Document)
    ensures Does(MediateElicitation(k, d), Nothing())
  {
    var plan := MediateElicitation(k, d);
    if plan.Plan? && plan.changes == Quiet() {
      QuietDoesNothing(plan);
    } else if plan.Plan? {
      var request := Section(Section(d, "elicitation").value, "request").value;
      AnswerDoesNothing(k.elicitation(d).value.disposition == "answered", k.elicitation(d).value.kind, request["revision"]);
    }
  }

  lemma PresentDoesNothing(k: Checks, d: Document)
    ensures Does(PresentAhp(k, d), Nothing())
  {}

  lemma RetryDoesNothing(execution: Document)
    ensures Does(RetryUnknown(execution), Nothing())
  {}

  lemma StateDoes(c: Capacity)
    ensures Does(HandleCapacityState(c), Nothing().(retries := c.retryable && Is(c.operational, "limiter_state", "available")))
  {}

  lemma ServiceDoes(c: Capacity)
    ensures Does(HandleService(c), Nothing().(retries := c.retryable))
  {}

  lemma RateLimitDoes(c: Capacity)
    ensures Does(HandleRateLimit(c),
                 Nothing().(retries := c.retryable && (Field(c.response, "limit") == JNull || WithDelay(Field(c.response, "limit")))))
  {}

  lemma HandleDoes(c: Capacity, execution: Document)
    ensures Does(Handle(c, execution),
                 Nothing().(retries := c.retryable &&
                                       if c.code == CapacityStateUnavailable then Is(c.operational, "limiter_state", "available")
                                       else if c.code == ServiceUnavailable then Is(execution, "outcome_state", "known")
                                       else Field(c.response, "limit") == JNull || WithDelay(Field(c.response, "limit"))))
  {
    StateDoes(c);
    ServiceDoes(c);
    RateLimitDoes(c);
  }

  lemma PartsMean(d: Document)
    requires CapacityParts(d).Some?
    ensures var c := CapacityParts(d).value;
            && Section(d, "operational") == Some(c.operational)
            && Section(c.operational, "capacity_response") == Some(c.response)
            && Field(c.response, "retryable") == JBool(c.retryable)
            && (c.code == RateLimited <==> Is(c.response, "code", "rate_limited"))
            && (c.code == CapacityStateUnavailable <==> Is(c.response, "code", "capacity_state_unavailable"))
            && (c.code == ServiceUnavailable <==> Is(c.response, "code", "service_unavailable"))
            && (c.code != RateLimited ==> "limit" !in c.response)
            && c.code in {RateLimited, CapacityStateUnavailable, ServiceUnavailable}
  {}

  lemma CapacityDoes(d: Document, execution: Document)
    ensures Does(HandleCapacity(d, execution), Nothing().(retries := MayRetry(d, execution)))
  {
    if CapacityParts(d).Some? {
      PartsMean(d);
      HandleDoes(CapacityParts(d).value, execution);
    }
  }

  /** The error came over authenticated HTTP with the status it must have, was not
      to be stored, and its Retry-After, if any, fits it. */
  predicate BoundToHttp(k: Checks, d: Document) {
    && Section(d, "transport").Some? && CapacityParts(d).Some?
    && var t, c := Section(d, "transport").value, CapacityParts(d).value;
    && t.Keys == {"binding", "authentication", "status", "cache_control_no_store", "retry_after"}
    && t["binding"] == JStr("http") && t["authentication"] == JStr("authenticated")
    && Observations.PyEqual(t["status"], JInt(if Is(c.response, "code", "rate_limited") then 429 else 503))
    && t["cache_control_no_store"] == JBool(true)
    && (t["retry_after"] == JStr("absent") || Accompanies(k, c.response, t["retry_after"]))
  }

  /** A Retry-After that goes with the error body: only where it may be retried, as
      a positive number of seconds, which for a rate limit must be the body's, or,
      except for a rate limit, as a date. */
  predicate Accompanies(k: Checks, response: Document, hint: Json) {
    && hint.JObj? && hint.members.Keys == {"form", "value"} && Field(response, "retryable") == JBool(true)
    && match (hint.members["form"], hint.members["value"])
       case (JStr("delay_seconds"), JInt(n)) =>
         && 1 <= n <= 9007199254740991
         && (Is(response, "code", "rate_limited") ==>
               Section(response, "limit").Some?
               && Observations.PyEqual(Field(Section(response, "limit").value, "retry_after_seconds"), JInt(n)))
       case (JStr("http_date"), JStr(text)) => k.httpDate(text) && !Is(response, "code", "rate_limited")
       case _ => false
  }

  lemma RetryAfterMeans(k: Checks, c: Capacity, hint: Json)
    requires Field(c.response, "retryable") == JBool(c.retryable)
    requires c.code == RateLimited <==> Is(c.response, "code", "rate_limited")
    ensures RetryAfterFits(c, RetryAfterParts(k, hint)) <==> hint == JStr("absent") || Accompanies(k, c.response, hint)
  {}

  lemma BoundToHttpMeans(k: Checks, d: Document)
    ensures HttpCapacity(k, d).Some? <==> BoundToHttp(k, d)
  {
    if CapacityParts(d).Some? && Section(d, "transport").Some? {
      PartsMean(d);
      RetryAfterMeans(k, CapacityParts(d).value, Field(Section(d, "transport").value, "retry_after"));
    }
  }

  lemma BoundDoes(retryAfter: bool, p: Plan, deeds: Deeds)
    requires Strict(p) && Unbound(p) && Does(p, deeds)
    ensures Does(Bound(retryAfter, p), deeds)
  {}

  lemma HttpCapacityDoes(k: Checks, d: Document, execution: Document)
    ensures Does(HandleHttpCapacity(k, d, execution), Nothing().(retries := BoundToHttp(k, d) && MayRetry(d, execution)))
  {
    BoundToHttpMeans(k, d);
    if HttpCapacity(k, d).Some? {
      CapacityDoes(d, execution);
      BoundDoes(HttpCapacity(k, d).value != NotGiven, HandleCapacity(d, execution),
                Nothing().(retries := MayRetry(d, execution)));
    } else {
      QuietDoesNothing(HandleHttpCapacity(k, d, execution));
    }
  }

  predicate Usable(runtime: Document) { Is(runtime, "returned_grant_width", "equal") && Is(runtime, "capability_match", "current") }

  lemma StoreDoes(runtime: Document, l: Looked, bound: bool)
    ensures Does(StoreGrant(runtime, l, bound), Nothing().(stores := Usable(runtime)))
  {}

  lemma MediateStandingDoes(runtime: Document, l: Looked, standing: Standing, informational: bool)
    ensures Does(MediateStanding(runtime, l, standing, informational),
                 Fencing(standing.Inactive?, standing == Inactive(Terminal))
                 .(stores := standing == Admitted && informational && Usable(runtime)))
  {
    if standing.Inactive? {
      FencedDoes(l, standing.condition == Terminal, Stopped, [MediationStopped], ConditionError(standing.condition));
    } else if standing == Admitted && informational {
      StoreDoes(runtime, l, true);
    } else {
      QuietDoesNothing(MediateStanding(runtime, l, standing, informational));
    }
  }

  lemma MediateGrantDoes(k: Checks, d: Document, st: State, grant: Document, runtime: Document)
    ensures var fences := ReturnLapsed(k, d, st, grant);
            Does(MediateGrantPlan(k, d, st, grant, runtime),
                 Fencing(fences, fences && SomeIs(k.purpose(d).value, Terminal))
                 .(stores := MayStore(k, d, st, grant, runtime)))
  {
    if !Agree(grant, "claimed_issuer", "issuer") {
      QuietDoesNothing(MediateGrantPlan(k, d, st, grant, runtime));
    } else if "purpose_binding" !in d {
      StoreDoes(runtime, {}, false);
    } else if k.purpose(d).None? || !ConfirmedReturn(k.purpose(d).value) {
      if k.purpose(d).Some? {
        ClosedIssuanceMeans(k.purpose(d).value);
      }
      QuietDoesNothing(MediateGrantPlan(k, d, st, grant, runtime));
    } else {
      var p := k.purpose(d).value;
      var (l, standing) := PreAdmission(p, st, true);
      ClosedIssuanceMeans(p);
      AdmissionMeans(p, st, true);
      MediateStandingDoes(runtime, l, standing, p.informational);
    }
  }

  lemma MediateDoes(k: Checks, op: Operation, d: Document, st: State)
    requires Section(d, "grant").Some? && Section(d, "execution").Some? && Section(d, "runtime").Some?
    ensures Does(Mediate(k, op, d, st), MediatorDeeds(k, op, d, st, Section(d, "grant").value, Section(d, "execution").value,
                                                      Section(d, "runtime").value))
  {
    var grant, execution, runtime := Section(d, "grant").value, Section(d, "execution").value, Section(d, "runtime").value;
    MediatePlanDoes(k, op, d, st, grant, execution, runtime);
    assert Mediate(k, op, d, st) == MediatePlan(k, op, d, st, grant, execution, runtime);
  }

  lemma MediatePlanDoes(k: Checks, op: Operation, d: Document, st: State,
                        grant: Document, execution: Document, runtime: Document)
    ensures Does(MediatePlan(k, op, d, st, grant, execution, runtime), MediatorDeeds(k, op, d, st, grant, execution, runtime))
  {
    match op
    case MediateMcpAction => MediateMcpDoes(k, d);
    case SimulateImpact => SimulateDoesNothing(k, d);
    case RenderRiskExplanation => RenderDoesNothing(k, d);
    case MediateHumanElicitation => ElicitationDoesNothing(k, d);
    case PresentAhpSession => PresentDoesNothing(k, d);
    case HandleHttpCapacityResponse => HttpCapacityDoes(k, d, execution);
    case HandleCapacityResponse => CapacityDoes(d, execution);
    case MediateGrant => MediateGrantDoes(k, d, st, grant, runtime);
    case RetryOutcome => RetryDoesNothing(execution);
    case MediateAction => MediateActionDoes(d, grant, runtime);
    case _ =>
  }

  // ----- the Agent Adapter -----

  predicate MayAdapt(k: Checks, op: Operation, d: Document) {
    match (Section(d, "execution"), Section(d, "adapter"), Section(d, "receipt"))
    case (Some(_), Some(adapter), Some(receipt)) =>
      (match op
       case AdaptMcpAction => k.mcp(d, Translation).Some?
       case ProjectHumanElicitationAnswer => k.agentProjection(d).Some? && !k.agentProjection(d).value.terminalReplay
       case TranslateAhpAction => k.ahp(d, "invoke", "action.request").Some?
       case TranslateAction =>
         Is(adapter, "credential_input", "none") && Is(adapter, "action_authority", "exact")
         && Is(adapter, "receipt_evidence", "observed") && Is(receipt, "origin", "observed")
       case _ => false)
    case _ => false
  }

  lemma AdaptDoes(k: Checks, op: Operation, d: Document)
    ensures Does(Adapt(k, op, d), Nothing().(forwards := MayAdapt(k, op, d)))
  {}

  // ----- the roles that only publish and witness -----

  /** What a manifest declares is complete and unchanged, and what it advertises
      validates. */
  predicate MayPublish(k: Checks, d: Document) {
    && Section(d, "surface").Some?
    && var surface := Section(d, "surface").value;
    && Is(surface, "references", "complete") && Agree(surface, "candidate_hash", "retained_hash")
    && (Is(surface, "mode", "proposal_only") ==> Is(surface, "action_semantics", "closed_read_propose"))
    && (Field(d, "purpose_binding") != JNull ==> (k.purpose(d).Some? && k.purpose(d).value.advertised && k.purpose(d).value.ready))
    && ("risk_explanation" in d ==> k.riskPublished(d))
    && (Field(d, "operational") != JNull ==> (Section(d, "operational").Some?
                                              && Is(Section(d, "operational").value, "declaration", "valid")))
  }

  function PublisherDeeds(k: Checks, op: Operation, d: Document): Deeds {
    match op
    case PublishMcpSurface => Nothing().(publishes := k.mcp(d, Discovery).Some?)
    case PublishManifest => Nothing().(publishes := MayPublish(k, d))
    case _ => Nothing()
  }

  lemma PublishDoes(k: Checks, d: Document)
    ensures Does(Publish(k, d), Nothing().(publishes := MayPublish(k, d)))
  {}

  lemma SurfaceDoes(k: Checks, op: Operation, d: Document)
    ensures Does(Surface(k, op, d), PublisherDeeds(k, op, d))
  {
    PublishDoes(k, d);
  }

  lemma ReceiptDoesNothing(op: Operation, d: Document, role: Option<ProducerRole>)
    ensures Does(Receipt(op, d, role), Nothing())
  {}

  // ----- any call -----

  /** The document carries an impact simulation in a section that the operation
      takes authority from. */
  predicate CarriesImpact(call: Call) {
    (TakesGrant(call.profile, call.operation) && ImpactIn(call.document, "grant"))
    || (TakesExecution(call.profile, call.operation) && ImpactIn(call.document, "execution")
        && (TakesGrant(call.profile, call.operation) ==> Section(call.document, "grant").Some?))
  }

  predicate ImpactIn(d: Document, name: string) { Section(d, name).Some? && "impact_simulation" in Section(d, name).value }

  predicate TakesGrant(p: Profile, op: Operation) {
    match p
    case GrantIssuer => op == IssueGrant || op == IssueMcpGrant || op == RevokeGrant
    case ActionExecutor => op == InvokeAction || op == ExecuteMcpAction || op == ReplayAction
    case RuntimeMediator => op == MediateGrant || op == MediateAction || op == MediateMcpAction
    case _ => false
  }

  predicate TakesExecution(p: Profile, op: Operation) {
    match p
    case ActionExecutor => op == InvokeAction || op == ExecuteMcpAction || op == ReplayAction
    case RuntimeMediator => op == MediateAction || op == MediateMcpAction
    case AgentAdapter => op == TranslateAhpAction || op == TranslateAction
    case _ => false
  }

  lemma EmbeddingMeans(call: Call)
    ensures Embedding(call) <==> CarriesImpact(call)
  {
    var d := call.document;
    EmbedsOne(d, "grant");
    EmbedsOne(d, "execution");
    EmbedsTwo(d);
  }

  lemma EmbedsCons(d: Document, name: string, rest: seq<string>)
    ensures Embeds(d, [name] + rest)
         == if Section(d, name).None? then None else if ImpactIn(d, name) then Some(true) else Embeds(d, rest)
  {
    assert ([name] + rest)[0] == name && ([name] + rest)[1..] == rest;
  }

  lemma EmbedsOne(d: Document, name: string)
    ensures Embeds(d, [name]) == if Section(d, name).None? then None else Some(ImpactIn(d, name))
  {
    EmbedsCons(d, name, []);
    assert [name] + [] == [name];
  }

  lemma EmbedsTwo(d: Document)
    ensures Embeds(d, ["grant", "execution"])
         == if Section(d, "grant").None? then None else if ImpactIn(d, "grant") then Some(true)
            else if Section(d, "execution").None? then None else Some(ImpactIn(d, "execution"))
  {
    EmbedsCons(d, "grant", ["execution"]);
    EmbedsOne(d, "execution");
    assert ["grant"] + ["execution"] == ["grant", "execution"];
  }

  /** What a call of any role does, by its document and the state it meets. */
  function Warranted(k: Checks, call: Call, st: State): Deeds {
    var d, op := call.document, call.operation;
    if CarriesImpact(call) then Nothing()
    else
      match call.profile
      case GrantIssuer =>
        if Section(d, "surface").None? || Section(d, "grant").None? then Nothing()
        else IssuerDeeds(k, op, d, st, Section(d, "surface").value, Section(d, "grant").value)
      case ActionExecutor =>
        if Section(d, "grant").None? || Section(d, "execution").None? then Nothing()
        else ExecutorDeeds(k, op, d, st, Section(d, "grant").value, Section(d, "execution").value)
      case RuntimeMediator =>
        if Section(d, "grant").None? || Section(d, "execution").None? || Section(d, "runtime").None? then Nothing()
        else MediatorDeeds(k, op, d, st, Section(d, "grant").value, Section(d, "execution").value, Section(d, "runtime").value)
      case AgentAdapter => Nothing().(forwards := MayAdapt(k, op, d))
      case SurfacePublisher => PublisherDeeds(k, op, d)
      case _ => Nothing()
  }

  lemma IssuerDoes(k: Checks, op: Operation, d: Document, st: State)
    ensures Does(Grant(k, op, d, st),
                 if Section(d, "surface").None? || Section(d, "grant").None? then Nothing()
                 else IssuerDeeds(k, op, d, st, Section(d, "surface").value, Section(d, "grant").value))
  {
    if Section(d, "surface").Some? && Section(d, "grant").Some? {
      GrantDoes(k, op, d, st);
    }
  }

  lemma ExecutorDoes(k: Checks, op: Operation, d: Document, st: State)
    ensures Does(Action(k, op, d, st),
                 if Section(d, "grant").None? || Section(d, "execution").None? then Nothing()
                 else ExecutorDeeds(k, op, d, st, Section(d, "grant").value, Section(d, "execution").value))
  {
    if Section(d, "grant").Some? && Section(d, "execution").Some? {
      ActionDoes(k, op, d, st);
    }
  }

  lemma MediatorDoes(k: Checks, op: Operation, d: Document, st: State)
    ensures Does(Mediate(k, op, d, st),
                 if Section(d, "grant").None? || Section(d, "execution").None? || Section(d, "runtime").None? then Nothing()
                 else MediatorDeeds(k, op, d, st, Section(d, "grant").value, Section(d, "execution").value,
                                    Section(d, "runtime").value))
  {
    if Section(d, "grant").Some? && Section(d, "execution").Some? && Section(d, "runtime").Some? {
      MediateDoes(k, op, d, st);
    } else {
      assert Mediate(k, op, d, st) == Raise;
    }
  }

  lemma RoleDoes(k: Checks, call: Call, st: State)
    requires !CarriesImpact(call)
    ensures Does(RolePlan(k, call, st), Warranted(k, call, st))
  {
    match call.profile
    case SurfacePublisher => SurfaceDoes(k, call.operation, call.document);
    case GrantIssuer => IssuerDoes(k, call.operation, call.document, st);
    case ActionExecutor => ExecutorDoes(k, call.operation, call.document, st);
    case ReceiptProducer => ReceiptDoesNothing(call.operation, call.document, call.role);
    case RuntimeMediator => MediatorDoes(k, call.operation, call.document, st);
    case AgentAdapter => AdaptDoes(k, call.operation, call.document);
    case OtherProfile(_) =>
  }

  /** The guard raises only where the role has nothing to do either. */
  lemma GuardRaises(k: Checks, call: Call, st: State)
    requires ImpactGuard(call.profile, call.operation).Some?
    requires Embeds(call.document, ImpactGuard(call.profile, call.operation).value.0).None?
    ensures Warranted(k, call, st) == Nothing()
  {
    EmbedsOne(call.document, "grant");
    EmbedsOne(call.document, "execution");
    EmbedsTwo(call.document);
  }

  lemma PlanDoes(k: Checks, call: Call, st: State)
    ensures Does(PlanFor(k, call, st), Warranted(k, call, st))
  {
    var guard := ImpactGuard(call.profile, call.operation);
    EmbeddingMeans(call);
    if CarriesImpact(call) {
      QuietDoesNothing(PlanFor(k, call, st));
    } else if FamilyFor(call.profile, call.role).None? {
      assert Warranted(k, call, st) == Nothing();
    } else if guard.Some? && Embeds(call.document, guard.value.0).None? {
      GuardRaises(k, call, st);
    } else {
      RoleDoes(k, call, st);
      assert PlanFor(k, call, st) == RolePlan(k, call, st);
    }
  }

  function Grown(st: State, st': State, n: StateName): int { Count(st', n) - Count(st, n) }

  /** The counters record these deeds and no others. */
  predicate Records(st: State, st': State, deeds: Deeds) {
    forall deed: Deed :: Grown(st, st', CounterFor(deed)) == One(Includes(deeds, deed))
  }

  lemma DeedsAreCounted(p: Plan, deeds: Deeds, deed: Deed)
    requires p.Plan? && Does(p, deeds)
    ensures CounterFor(deed) in p.changes.bumped <==> Includes(deeds, deed)
  {}

  lemma NoSettingIsADeed(deed: Deed)
    ensures Counted(CounterFor(deed)) && CounterFor(deed) !in Lookups()
  {}

  lemma DeedRecorded(p: Plan, st: State, deeds: Deeds, deed: Deed)
    requires Fine(p) && Does(p, deeds) && Perform(p, st).Some?
    ensures Grown(st, Perform(p, st).value.after, CounterFor(deed)) == One(Includes(deeds, deed))
  {
    NoSettingIsADeed(deed);
    DeedsAreCounted(p, deeds, deed);
    AfterCounts(st, Total(p), CounterFor(deed));
  }

  lemma PlanRecords(p: Plan, st: State, deeds: Deeds)
    requires Fine(p) && Does(p, deeds) && Perform(p, st).Some?
    ensures Records(st, Perform(p, st).value.after, deeds)
  {
    forall deed: Deed
      ensures Grown(st, Perform(p, st).value.after, CounterFor(deed)) == One(Includes(deeds, deed))
    {
      DeedRecorded(p, st, deeds, deed);
    }
  }

  /** A call that is warranted to do anything raises only if the state lacks what it
      counts or sets. */
  lemma TheWarrantedIsDone(k: Checks, call: Call, st: State)
    requires Warranted(k, call, st) != Nothing()
    ensures var p := PlanFor(k, call, st);
            p.Plan? && (Step(k, call, st).Some? <==> Possible(st, Total(p)))
  {
    PlanDoes(k, call, st);
  }

  /** Whatever the role, a call does each of these deeds once, exactly when its
      document and the state show everything that this takes, and otherwise does
      not do it. */
  lemma OnlyTheWarranted(k: Checks, call: Call, st: State)
    requires Step(k, call, st).Some?
    ensures Records(st, Step(k, call, st).value.after, Warranted(k, call, st))
  {
    PlanDoes(k, call, st);
    PlanRecords(PlanFor(k, call, st), st, Warranted(k, call, st));
  }

  lemma DeedOf(st: State, st': State, deeds: Deeds, deed: Deed)
    requires Records(st, st', deeds)
    ensures Count(st', CounterFor(deed)) == Count(st, CounterFor(deed)) + One(Includes(deeds, deed))
  {
    assert Grown(st, st', CounterFor(deed)) == One(Includes(deeds, deed));
  }

  lemma InvocationWarrant(k: Checks, call: Call, st: State, grant: Document, execution: Document)
    requires call.profile == ActionExecutor && call.operation == InvokeAction
    requires Section(call.document, "grant") == Some(grant) && Section(call.document, "execution") == Some(execution)
    ensures Warranted(k, call, st).effects == (!CarriesImpact(call) && MayTakeEffect(k, call.document, st, grant, execution))
  {
    assert !CarriesImpact(call) ==> Warranted(k, call, st) == ExecutorDeeds(k, InvokeAction, call.document, st, grant, execution);
  }

  lemma IssuanceWarrant(k: Checks, call: Call, st: State, surface: Document, grant: Document)
    requires call.profile == GrantIssuer && call.operation == IssueGrant
    requires Section(call.document, "surface") == Some(surface) && Section(call.document, "grant") == Some(grant)
    ensures Warranted(k, call, st).issues == (!CarriesImpact(call) && MayIssue(k, call.document, st, surface, grant))
  {}

  /** So an invoked action takes effect exactly when all of this is shown. */
  lemma InvocationTakesEffect(k: Checks, call: Call, st: State, grant: Document, execution: Document)
    requires call.profile == ActionExecutor && call.operation == InvokeAction && Step(k, call, st).Some?
    requires Section(call.document, "grant") == Some(grant) && Section(call.document, "execution") == Some(execution)
    ensures Count(Step(k, call, st).value.after, ActionEffectCount)
         == Count(st, ActionEffectCount)
            + One(!CarriesImpact(call) && MayTakeEffect(k, call.document, st, grant, execution))
  {
    InvocationWarrant(k, call, st, grant, execution);
    OnlyTheWarranted(k, call, st);
    DeedOf(st, Step(k, call, st).value.after, Warranted(k, call, st), Effect);
  }

  /** And a requested Grant is issued exactly then: in particular never for a wider
      purpose, and never for an action that was not requested. */
  lemma IssuanceIssues(k: Checks, call: Call, st: State, surface: Document, grant: Document)
    requires call.profile == GrantIssuer && call.operation == IssueGrant && Step(k, call, st).Some?
    requires Section(call.document, "surface") == Some(surface) && Section(call.document, "grant") == Some(grant)
    ensures Count(Step(k, call, st).value.after, GrantIssuedCount)
         == Count(st, GrantIssuedCount) + One(!CarriesImpact(call) && MayIssue(k, call.document, st, surface, grant))
  {
    IssuanceWarrant(k, call, st, surface, grant);
    OnlyTheWarranted(k, call, st);
    DeedOf(st, Step(k, call, st).value.after, Warranted(k, call, st), Issue);
  }

  // ----- any run -----

  /** Behaviour in which every call does what it is warranted to do. */
  ghost predicate Follows(b: Behaviour, warranted: (Call, State) -> Deeds) {
    forall c: Call, st: State :: Fine(b(c, st)) && Does(b(c, st), warranted(c, st))
  }

  lemma {:induction false} FollowingRuns(b: Behaviour, warranted: (Call, State) -> Deeds, calls: seq<Call>, st: State, deed: Deed)
    requires Follows(b, warranted)
    ensures Growth(b, calls, st, CounterFor(deed))
         == Tally(b, calls, st, (c: Call, o: Outcome) => Includes(warranted(c, o.before), deed))
  {
    if calls != [] {
      assert Fine(b(calls[0], st)) && Does(b(calls[0], st), warranted(calls[0], st));
      PlanIncludes(b(calls[0], st), st, warranted(calls[0], st), deed);
      NoSettingIsADeed(deed);
      GrowthStep(b, calls, st, CounterFor(deed));
      FollowingRuns(b, warranted, calls[1..], Next(b, calls[0], st), deed);
    }
  }

  lemma PlanIncludes(p: Plan, st: State, deeds: Deeds, deed: Deed)
    requires Fine(p) && Does(p, deeds)
    ensures PlanBumps(p, st, CounterFor(deed)) <==> Perform(p, st).Some? && Includes(deeds, deed)
    ensures Perform(p, st).Some? ==> Perform(p, st).value.before == st
  {
    NoSettingIsADeed(deed);
    if p.Plan? {
      DeedsAreCounted(p, deeds, deed);
    }
  }

  /** What the mock is warranted to do. */
  function Warrants(k: Checks): (Call, State) -> Deeds { (c: Call, st: State) => Warranted(k, c, st) }

  /** Over every run of calls of any roles, each deed is done exactly as often as
      calls were warranted to do it in the state they met. */
  lemma RunsDoTheWarranted(k: Checks, calls: seq<Call>, st: State, deed: Deed)
    ensures Growth(Mock(k), calls, st, CounterFor(deed))
         == Tally(Mock(k), calls, st, (c: Call, o: Outcome) => Includes(Warrants(k)(c, o.before), deed))
  {
    forall c: Call, t: State
      ensures Fine(Mock(k)(c, t)) && Does(Mock(k)(c, t), Warrants(k)(c, t))
    {
      PlanDoes(k, c, t);
    }
    FollowingRuns(Mock(k), Warrants(k), calls, st, deed);
  }
}
