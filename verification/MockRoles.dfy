/** The roles of the mock participants: what each operation decides about a
    document, and which updates it makes.  The long field-by-field validators of
    bindings, elicitations and projections are parameters.  Each function's
    contract says what its plan keeps, whatever the document. */
module MockRoles {
  import opened Wrappers
  import opened Collections
  import opened JsonDiff
  import Observations
  import opened MockNames
  import opened MockState

  type Document = map<string, Json>

  // ----- reading documents -----

  function Section(d: Document, name: string): Option<Document> {
    if name in d && d[name].JObj? then Some(d[name].members) else None
  }

  /** dict.get: absent and null are the same. */
  function Field(d: Document, name: string): Json { if name in d then d[name] else JNull }

  predicate Is(d: Document, name: string, text: string) { Field(d, name) == JStr(text) }

  /** Python's == between two values. */
  predicate Equal(a: Json, b: Json) { Observations.PyEqual(a, b) }

  predicate Agree(d: Document, a: string, b: string) { Equal(Field(d, a), Field(d, b)) }

  predicate Hashable(j: Json) { !j.JArr? && !j.JObj? }

  /** set(xs) and set(ys), if neither has an unhashable member: is the first a
      subset of the second? */
  function SubsetOf(xs: seq<Json>, ys: seq<Json>): Option<bool> {
    if (exists x :: x in xs && !Hashable(x)) || (exists y :: y in ys && !Hashable(y)) then None
    else Some(forall x :: x in xs ==> exists y :: y in ys && Equal(x, y))
  }

  // ----- validated parts of a document -----

  datatype Phase = Discovery | Issuance | Admission | PreDispatch | Translation | Returning

  datatype Elicitation = Elicitation(kind: string, disposition: string, terminalReplay: bool)

  datatype Reference = Reference(id: string, revision: string)

  datatype Binding = Binding(purpose: Reference, task: Option<Reference>)

  datatype Condition = Active | Suspended | Terminal | Unavailable

  datatype PurposeRecord = PurposeRecord(reference: Reference, condition: Condition, allows: bool)

  datatype TaskRecord = TaskRecord(reference: Reference, parent: Reference, condition: Condition, allows: bool)

  datatype Relation = SameBinding | Narrower | Wider

  /** A closed Purpose Binding projection. */
  datatype Purpose = Purpose(advertised: bool, ready: bool, request: Binding, consent: Binding, grant: Binding,
                             returned: Binding, session: Binding, parent: Binding, attenuation: Relation,
                             purpose: PurposeRecord, task: Option<TaskRecord>,
                             withinLifetime: bool, linked: bool, informational: bool)

  /** The validators; None and false stand for their exception. */
  datatype Checks = Checks(mcp: (Document, Phase) -> Option<Document>,
                           elicitation: Document -> Option<Elicitation>,
                           agentProjection: Document -> Option<Elicitation>,
                           purpose: Document -> Option<Purpose>,
                           riskPublished: Document -> bool,
                           riskProjected: Document -> bool,
                           impact: Document -> bool,
                           ahp: (Document, string, string) -> Option<Document>,
                           httpDate: string -> bool)

  // ----- what every plan keeps -----

  /** What a purpose look-up counts. */
  function Lookups(): set<StateName> { {PurposeBindingResolutionCount, PurposeBindingPolicyEvaluationCount} }

  type Looked = l: set<StateName> | l <= Lookups()

  /** The state values that are set by some operation. */
  function Settings(): set<StateName> {
    {GrantLifecycle, GrantChildActiveCount, CredentialActiveCount, ProofSessionActiveCount, ExecutionTokenActiveCount,
     ReservationActiveCount, RevocationConfirmedAfterEffective, RuntimeElicitationRevision,
     RuntimeAhpRepresentationRevision, RuntimeLocalWindowCount, RuntimeLocalInFlightCount,
     RuntimeCapacityRecoveryPending, RuntimeCapacityDecisionPending, RuntimeRetryWaitPending,
     RuntimeRetryDelayFloorSeconds}
  }

  /** Counters that a call increments together, each with the first of its
      group. */
  function Leader(n: StateName): StateName {
    match n
    case IdempotencyRecordCount => ActionEffectCount
    case BudgetApplicationCharge => ActionEffectCount
    case CredentialIssuedCount => GrantIssuedCount
    case SurfaceVersionBindingCount => ManifestAcceptedCount
    case RevocationConfirmedCount => RevocationEffectiveCount
    case RevocationFenceCount => RevocationEffectiveCount
    case ControlEventEmittedCount => RevocationEffectiveCount
    case OperationalEventDeliveryRecordCount => OperationalEventFirstDeliveryCount
    case OperationalEventDeliveryIdentityCount => OperationalEventFirstDeliveryCount
    case OperationalEventInFlightCount => OperationalEventFirstDeliveryCount
    case EventCursorAdvanceCount => OperationalEventFirstDeliveryCount
    case ApplicationProposalUpdateCount => ApplicationProposalRevision
    case _ => n
  }

  /** Every counter is incremented exactly when the first of its group is. */
  predicate InStep(names: set<StateName>) {
    && (IdempotencyRecordCount in names <==> ActionEffectCount in names)
    && (BudgetApplicationCharge in names <==> ActionEffectCount in names)
    && (CredentialIssuedCount in names <==> GrantIssuedCount in names)
    && (SurfaceVersionBindingCount in names <==> ManifestAcceptedCount in names)
    && (RevocationConfirmedCount in names <==> RevocationEffectiveCount in names)
    && (RevocationFenceCount in names <==> RevocationEffectiveCount in names)
    && (ControlEventEmittedCount in names <==> RevocationEffectiveCount in names)
    && (OperationalEventDeliveryRecordCount in names <==> OperationalEventFirstDeliveryCount in names)
    && (OperationalEventDeliveryIdentityCount in names <==> OperationalEventFirstDeliveryCount in names)
    && (OperationalEventInFlightCount in names <==> OperationalEventFirstDeliveryCount in names)
    && (EventCursorAdvanceCount in names <==> OperationalEventFirstDeliveryCount in names)
    && (ApplicationProposalUpdateCount in names <==> ApplicationProposalRevision in names)
  }

  lemma InStepIsByLeader(names: set<StateName>, n: StateName)
    requires InStep(names)
    ensures n in names <==> Leader(n) in names
  {
  }

  /** What a rejected call leaves alone is not among these. */
  predicate Spares(names: set<StateName>) {
    && ActionDispatchCount !in names && ActionEffectCount !in names && IdempotencyRecordCount !in names
    && BudgetApplicationCharge !in names && GrantIssuedCount !in names && CredentialIssuedCount !in names
    && AdapterForwardedCount !in names
  }

  predicate Protected(n: StateName) { !Spares({n}) }

  /** Only settings are set, nothing is both set and incremented, groups are
      incremented as one, and a grant is revoked totally or not at all. */
  ghost predicate Proper(c: Changes) {
    && c.settled.Keys <= Settings()
    && c.bumped !! c.settled.Keys && c.bumped !! Lookups()
    && InStep(c.bumped)
    && (RevocationEffectiveCount in c.bumped ==> c.settled == Revoked())
    && (RuntimeRetryCount in c.bumped ==> Waits(c.settled))
  }

  /** A retry waits, and counts in no window yet. */
  predicate Waits(settled: map<StateName, Json>) {
    && RuntimeRetryWaitPending in settled && settled[RuntimeRetryWaitPending] == JBool(true)
    && RuntimeLocalWindowCount in settled && settled[RuntimeLocalWindowCount] == JInt(0)
    && RuntimeLocalInFlightCount in settled && settled[RuntimeLocalInFlightCount] == JInt(0)
  }

  /** Nothing protected is incremented, and nothing is set without a fence. */
  predicate Harmless(c: Changes) {
    && Spares(c.bumped)
    && (c.settled == map[] || PurposeBindingSessionFenceCount in c.bumped)
  }

  /** Receipts, fences and issued grants are reported exactly when they are
      counted. */
  predicate Truthful(tokens: seq<Token>, bumped: set<StateName>) {
    && (ApplicationReceiptEmitted in tokens <==> ReceiptApplicationCount in bumped)
    && (SessionFenced in tokens <==> PurposeBindingSessionFenceCount in bumped)
    && (GrantIssued in tokens <==> GrantIssuedCount in bumped)
  }

  ghost predicate Fine(p: Plan) {
    p.Plan? ==>
      (&& Reportable(p.tokens) && p.looked <= Lookups() && Proper(p.changes) && Truthful(p.tokens, p.changes.bumped)
       && (p.decision == Rejected ==> Harmless(p.changes)))
  }

  /** Besides, rejecting changes nothing. */
  ghost predicate Strict(p: Plan) { Fine(p) && (p.Plan? ==> p.looked == {} && (p.decision == Rejected ==> p.changes == Quiet())) }

  /** Rejecting changes something exactly on a condition. */
  predicate RejectsCounting(p: Plan, condition: bool) {
    p.Plan? && p.decision == Rejected ==> (p.looked != {} || p.changes.bumped != {} <==> condition)
  }

  /** What the Action Executor does besides: actions are accepted, dispatched and
      take effect together, and with a receipt; the only other receipt is a
      denial's, the only other transmission a retransmission's. */
  predicate ExecutorFine(p: Plan, op: Operation) {
    p.Plan? ==>
      var names := p.changes.bumped;
      (&& (ActionAccepted in p.tokens <==> ActionDispatchCount in names)
       && (ActionDispatchCount in names <==> ActionEffectCount in names)
       && (ReceiptApplicationCount in names <==> ActionEffectCount in names || p.error == Some(RiskDenied))
       && !(ActionEffectCount in names && p.error == Some(RiskDenied))
       && (OperationalEventTransmissionCount in names
           <==> OperationalEventFirstDeliveryCount in names || op == RetransmitEvent)
       && !(OperationalEventFirstDeliveryCount in names && op == RetransmitEvent))
  }

  ghost predicate ExecutorPlan(p: Plan, op: Operation) { Fine(p) && ExecutorFine(p, op) }

  ghost predicate StrictExecutor(p: Plan, op: Operation) { Strict(p) && ExecutorFine(p, op) }

  /** What revoking a grant does. */
  predicate RevokesOrReplays(p: Plan) {
    p.Plan? ==>
      if p.decision == Accepted then p.changes == Revocation({})
      else p.looked == {} && p.changes == Quiet() && (p.decision == Replayed || p.decision == Rejected)
  }

  // ----- results -----

  function Reply(l: Looked, c: Changes, decision: Decision, tokens: seq<Token>): Plan {
    Plan(l, c, decision, tokens, None, None, None)
  }

  function Fault(l: Looked, c: Changes, decision: Decision, tokens: seq<Token>, error: AspError): Plan {
    Plan(l, c, decision, tokens, Some(error), None, None)
  }

  /** A rejection that counts nothing of its own. */
  function Refused(l: Looked, tokens: seq<Token>, error: AspError): (plan: Plan)
    requires Reportable(tokens) && Uneventful(tokens)
    ensures Fine(plan) && (error != RiskDenied ==> ExecutorFine(plan, InvokeAction))
  {
    Fault(l, Quiet(), Rejected, tokens, error)
  }

  function ByPolicy(l: Looked, c: Changes, decision: Decision, tokens: seq<Token>, reason: Reason): Plan {
    Plan(l, c, decision, tokens, None, Some(reason), None)
  }

  function ByMatch(l: Looked, c: Changes, decision: Decision, tokens: seq<Token>, reason: Reason): Plan {
    Plan(l, c, decision, tokens, None, None, Some(reason))
  }

  // ----- updates that several branches make -----

  /** What these changes report of an executed action. */
  predicate Executes(c: Changes) {
    && ActionDispatchCount in c.bumped && ActionEffectCount in c.bumped && ReceiptApplicationCount in c.bumped
    && PurposeBindingSessionFenceCount !in c.bumped && GrantIssuedCount !in c.bumped
    && OperationalEventTransmissionCount !in c.bumped && OperationalEventFirstDeliveryCount !in c.bumped
  }

  /** An application executes an action. */
  function Effects(): (c: Changes)
    ensures Proper(c) && Executes(c)
  {
    Bumps({ActionDispatchCount, ActionEffectCount, IdempotencyRecordCount, BudgetApplicationCharge,
           ReceiptApplicationCount})
  }

  /** It does so under operational limits. */
  function LimitedEffects(): (c: Changes)
    ensures Proper(c) && Executes(c)
  {
    Bumps({OperationalActionWindowCount, OperationalActionSecondaryWindowCount, OperationalActionSlotAcquisitionCount,
           ApplicationWorkloadCount, ReceiptApplicationCount, ActionDispatchCount, ActionEffectCount,
           IdempotencyRecordCount, BudgetApplicationCharge})
  }

  /** It delivers an event for the first time. */
  function FirstDelivery(): (c: Changes)
    ensures Proper(c)
  {
    Bumps({OperationalEventDeliveryRecordCount, OperationalEventDeliveryIdentityCount,
           OperationalEventFirstDeliveryCount, OperationalEventInFlightCount, OperationalEventTransmissionCount,
           EventCursorAdvanceCount})
  }

  /** What a revocation sets. */
  function Revoked(): map<StateName, Json> {
    map[GrantLifecycle := JStr("revoked"),
        GrantChildActiveCount := JInt(0), CredentialActiveCount := JInt(0), ProofSessionActiveCount := JInt(0),
        ExecutionTokenActiveCount := JInt(0), ReservationActiveCount := JInt(0),
        RevocationConfirmedAfterEffective := JBool(true)]
  }

  /** `_apply_semantic_grant_revocation`, after other counters. */
  function Revocation(counted: set<StateName>): (c: Changes)
    ensures counted <= {PurposeBindingSessionFenceCount} ==> Proper(c)
  {
    Changes(counted + {ControlEventEmittedCount, RevocationEffectiveCount, RevocationConfirmedCount, RevocationFenceCount},
            Revoked())
  }

  /** Every handled capacity response clears the local windows, sets what it
      sets, and may schedule a retry. */
  function Cleared(values: map<StateName, Json>, retries: bool): (c: Changes)
    ensures values.Keys <= {RuntimeCapacityRecoveryPending, RuntimeCapacityDecisionPending, RuntimeRetryDelayFloorSeconds}
            ==> Proper(c)
  {
    var windows := map[RuntimeLocalWindowCount := JInt(0), RuntimeLocalInFlightCount := JInt(0)];
    if retries then Changes({RuntimeRetryCount}, windows + values + map[RuntimeRetryWaitPending := JBool(true)])
    else Changes({}, windows + values)
  }

  // ----- purposes -----

  function Attenuation(parent: Binding, child: Binding): Relation {
    if parent == child then SameBinding
    else if parent.purpose != child.purpose then Wider
    else if parent.task.None? && child.task.Some? then Narrower
    else Wider
  }

  /** The current condition of a purpose and its task, and whether policy
      allows; None if the records are not the Grant's. */
  function CurrentPurpose(p: Purpose): Option<(Condition, bool)> {
    if p.grant.purpose != p.purpose.reference then None
    else
      match (p.grant.task, p.task)
      case (None, Some(_)) => None
      case (Some(_), None) => None
      case (None, None) => Some(Combined([p.purpose.condition], p.purpose.allows))
      case (Some(reference), Some(record)) =>
        if reference != record.reference || record.parent != p.grant.purpose then None
        else Some(Combined([p.purpose.condition, record.condition], p.purpose.allows && record.allows))
  }

  function Combined(conditions: seq<Condition>, allows: bool): (Condition, bool) {
    if Terminal in conditions then (Terminal, false)
    else if Unavailable in conditions then (Unavailable, false)
    else if Suspended in conditions then (Suspended, false)
    else (Active, allows)
  }

  /** How a pre-admission ended. */
  datatype Standing = Mismatched | Raised | Inactive(condition: Condition) | Denied | Admitted

  /** `_purpose_pre_admission`: what it has counted stays counted also when it
      raises. */
  function PreAdmission(p: Purpose, st: State, requireSession: bool): (r: (set<StateName>, Standing))
    ensures r.0 <= Lookups()
    ensures r.0 != {} <==> (requireSession ==> p.session == p.grant) && Countable(st, PurposeBindingResolutionCount)
    ensures r.1 != Raised && r.1 != Mismatched ==> r.0 != {}
  {
    var resolved := {PurposeBindingResolutionCount};
    if requireSession && p.session != p.grant then ({}, Mismatched)
    else if !Countable(st, PurposeBindingResolutionCount) then ({}, Raised)
    else
      match CurrentPurpose(p)
      case None => (resolved, Raised)
      case Some((condition, allows)) =>
        if condition != Active then (resolved, Inactive(condition))
        else if !Countable(st, PurposeBindingPolicyEvaluationCount) then (resolved, Raised)
        else (Lookups(), if allows then Admitted else Denied)
  }

  /** A purpose look-up gets as far as counting. */
  predicate LooksUp(k: Checks, d: Document, st: State) {
    && "purpose_binding" in d && k.purpose(d).Some?
    && k.purpose(d).value.session == k.purpose(d).value.grant && Countable(st, PurposeBindingResolutionCount)
  }

  function RevocationTokens(): (tokens: seq<Token>)
    ensures Reportable(tokens) && Uneventful(tokens)
  {
    [GrantRevoked, ChildGrantRevoked, CredentialInvalidated, ProofSessionInvalidated, ExecutionTokenInvalidated,
     ReservationInvalidated, Token.ControlEventEmitted, RevocationFenceEstablished, RevocationConfirmed]
  }

  lemma DistinctConcat(a: seq<Token>, b: seq<Token>)
    requires Distinct(a) && Distinct(b) && forall t :: t in b ==> t !in a
    ensures Distinct(a + b)
  {
    forall i, j | 0 <= i < j < |a + b|
      ensures (a + b)[i] != (a + b)[j]
    {
      if i < |a| <= j {
        assert b[j - |a|] in b;
      }
    }
  }

  /** What is reported first of a terminal purpose. */
  function RevocationHead(): (tokens: seq<Token>)
    ensures Reportable(tokens) && SessionFenced in tokens && Plain(tokens)
  {
    [PurposeBindingStateChecked, PurposeBindingRejected, SessionFenced, SemanticGrantRevocationApplied] + RevocationTokens()
  }

  predicate Plain(tokens: seq<Token>) {
    ApplicationReceiptEmitted !in tokens && GrantIssued !in tokens && ActionAccepted !in tokens
  }

  predicate Uneventful(tokens: seq<Token>) { Plain(tokens) && SessionFenced !in tokens }

  /** What may be reported after a fence. */
  predicate Tail(tokens: seq<Token>) { Distinct(tokens) && Plain(tokens) && forall t :: t in tokens ==> t !in RevocationHead() }

  function RevocationReport(tail: seq<Token>): (tokens: seq<Token>)
    requires Tail(tail)
    ensures Reportable(tokens) && SessionFenced in tokens && Plain(tokens)
  {
    DistinctConcat(RevocationHead(), tail);
    RevocationHead() + tail
  }

  function SuspensionReport(tail: seq<Token>): (tokens: seq<Token>)
    requires Tail(tail)
    ensures Reportable(tokens) && SessionFenced in tokens && Plain(tokens)
  {
    var head := [PurposeBindingStateChecked, PurposeBindingRejected, SessionFenced];
    assert forall t :: t in head ==> t in RevocationHead();
    DistinctConcat(head, tail);
    head + tail
  }

  /** Counted is a fence, and nothing that an execution counts. */
  predicate Fences(c: Changes) {
    && PurposeBindingSessionFenceCount in c.bumped && Spares(c.bumped)
    && ReceiptApplicationCount !in c.bumped
    && OperationalEventTransmissionCount !in c.bumped && OperationalEventFirstDeliveryCount !in c.bumped
  }

  function FencedWith(l: Looked, c: Changes, decision: Decision, tokens: seq<Token>, error: AspError): (plan: Plan)
    requires Proper(c) && Fences(c) && Reportable(tokens) && SessionFenced in tokens && Plain(tokens) && error != RiskDenied
    ensures Fine(plan) && ExecutorFine(plan, ReplayAction)
    ensures plan.Plan? && plan.decision == decision && plan.looked == l && plan.changes.bumped != {}
  {
    Fault(l, c, decision, tokens, error)
  }

  /** A session is fenced when its purpose no longer admits; a terminal purpose
      also revokes the grant. */
  function Fenced(l: Looked, terminal: bool, decision: Decision, tail: seq<Token>, error: AspError): (plan: Plan)
    requires Tail(tail) && error != RiskDenied
    ensures Fine(plan) && ExecutorFine(plan, ReplayAction)
    ensures plan.Plan? && plan.decision == decision && plan.looked == l && plan.changes.bumped != {}
  {
    if terminal then Terminated(l, decision, tail)
    else FencedWith(l, Bumps({PurposeBindingSessionFenceCount}), decision, SuspensionReport(tail), error)
  }

  function Terminated(l: Looked, decision: Decision, tail: seq<Token>): (plan: Plan)
    requires Tail(tail)
    ensures Fine(plan) && ExecutorFine(plan, ReplayAction)
    ensures plan.Plan? && plan.decision == decision && plan.looked == l && plan.changes.bumped != {}
  {
    FencedWith(l, Revocation({PurposeBindingSessionFenceCount}), decision, RevocationReport(tail), GrantIsRevoked)
  }

  /** The error of a purpose that is not active. */
  function ConditionError(condition: Condition): AspError {
    if condition == Unavailable then PurposeBindingStatusUnavailable else PurposeBindingDenied
  }

  // ----- Surface Publisher -----

  function PublishMcp(k: Checks, d: Document): (plan: Plan)
    ensures Strict(plan)
  {
    if k.mcp(d, Discovery).None? then
      Refused({}, [McpBindingRejected, McpDiscoverySuppressed, AspAuthorityRetained, ActionDispatchSuppressed],
              SurfaceIncompatible)
    else
      Reply({}, Bumps({ManifestAcceptedCount, SurfaceVersionBindingCount}), Accepted,
            [McpBindingValidated, McpSurfacePublished, McpToolsPublished, AspAuthorityUnchanged])
  }

  predicate Compatible(surface: Document) {
    && Is(surface, "references", "complete")
    && Agree(surface, "candidate_hash", "retained_hash")
    && (Is(surface, "mode", "proposal_only") ==> Is(surface, "action_semantics", "closed_read_propose"))
  }

  function Publish(k: Checks, d: Document): (plan: Plan)
    ensures Strict(plan)
  {
    match Section(d, "surface")
    case None => Raise
    case Some(surface) =>
      var bound := Field(d, "purpose_binding") != JNull;
      var purpose := k.purpose(d);
      var risk := "risk_explanation" in d;
      var operational := Field(d, "operational") != JNull;
      if bound && (purpose.None? || !purpose.value.advertised || !purpose.value.ready) then
        Refused({}, [PurposeBindingRejected, ManifestRejected], SurfaceIncompatible)
      else if risk && !k.riskPublished(d) then
        Refused({}, [RiskExplanationRejected, ManifestRejected], SurfaceIncompatible)
      else if operational && Section(d, "operational").None? then Raise
      else if (operational && !Is(Section(d, "operational").value, "declaration", "valid")) || !Compatible(surface) then
        Refused({}, [ManifestRejected], SurfaceIncompatible)
      else Published(bound, operational, risk)
  }

  function Published(bound: bool, operational: bool, risk: bool): (plan: Plan)
    ensures Strict(plan)
  {
    Reply({}, Bumps({ManifestAcceptedCount, SurfaceVersionBindingCount}), Accepted,
          if bound then [PurposeBindingAdvertised, PurposeBindingValidated, ManifestPublished]
          else if operational && risk then [OperationalLimitsValidated, RiskExplanationValidated, ManifestPublished]
          else if operational then [OperationalLimitsValidated, ManifestPublished]
          else if risk then [RiskExplanationValidated, ManifestPublished]
          else [ManifestPublished])
  }

  function Surface(k: Checks, op: Operation, d: Document): (plan: Plan)
    ensures Strict(plan)
  {
    match op
    case PublishMcpSurface => PublishMcp(k, d)
    case PublishManifest => Publish(k, d)
    case _ => Raise
  }

  // ----- Grant Issuer -----

  function IssueMcp(k: Checks, d: Document, surface: Document, grant: Document): (plan: Plan)
    ensures Strict(plan)
  {
    var refusal := ByPolicy({}, Quiet(), Rejected,
                            [GrantRejected, McpBindingRejected, AspAuthorityRetained, CredentialWithheld], BindingInvalid);
    if k.mcp(d, Issuance).None?
       || !Is(surface, "status", "current")
       || !Is(grant, "passport_status", "current")
       || !Is(grant, "companion_closure", "closed")
    then refusal
    else
      match IssuedWithin(grant, true)
      case None => Raise
      case Some(false) => refusal
      case Some(true) => IssuedMcp()
  }

  function IssuedMcp(): (plan: Plan)
    ensures Strict(plan)
  {
    Reply({}, Bumps({GrantIssuedCount, CredentialIssuedCount}), Accepted,
          [McpBindingValidated, GrantLocationBound, GrantIssued, TupleChecked, CredentialWithheld])
  }

  /** Are the issued actions among the requested ones?  None if that cannot be
      evaluated.  A missing list may count as empty. */
  function IssuedWithin(grant: Document, missingIsEmpty: bool): Option<bool> {
    var issued := if missingIsEmpty && "issued_actions" !in grant then JArr([]) else Field(grant, "issued_actions");
    var requested := if missingIsEmpty && "requested_actions" !in grant then JArr([]) else Field(grant, "requested_actions");
    if issued.JArr? && requested.JArr? then SubsetOf(issued.items, requested.items) else None
  }

  predicate ClosedIssuance(p: Purpose) {
    && p.consent == p.request && p.grant == p.request && p.returned == p.request
    && p.advertised && p.ready && p.withinLifetime && p.linked
    && p.attenuation == Attenuation(p.parent, p.grant) && p.attenuation != Wider
  }

  /** A rejected issuance has counted a look-up. */
  predicate IssuanceCounts(k: Checks, d: Document, st: State, surface: Document) {
    && Is(surface, "status", "current") && "purpose_binding" in d
    && k.purpose(d).Some? && ClosedIssuance(k.purpose(d).value) && Countable(st, PurposeBindingResolutionCount)
  }

  function IssueGrantPlan(k: Checks, d: Document, st: State, surface: Document, grant: Document): (plan: Plan)
    ensures Fine(plan)
    ensures RejectsCounting(plan, IssuanceCounts(k, d, st, surface))
  {
    if !Is(surface, "status", "current") then Reply({}, Quiet(), Rejected, [GrantRejected, CurrentStateChecked])
    else if "purpose_binding" !in d then
      IssueChecked(grant, {}, false)
    else
      IssueForPurpose(k.purpose(d), st, grant)
  }

  function IssueForPurpose(purpose: Option<Purpose>, st: State, grant: Document): (plan: Plan)
    ensures Fine(plan)
    ensures RejectsCounting(plan, purpose.Some? && ClosedIssuance(purpose.value) && Countable(st, PurposeBindingResolutionCount))
  {
    if purpose.None? || !ClosedIssuance(purpose.value) then
      Refused({}, [PurposeBindingRejected, GrantRejected, CredentialWithheld], IntegrityMismatch)
    else
      var (l, standing) := PreAdmission(purpose.value, st, false);
      IssueStanding(grant, l, standing)
  }

  function IssueStanding(grant: Document, l: Looked, standing: Standing): (plan: Plan)
    ensures Fine(plan)
    ensures RejectsCounting(plan, l != {})
  {
    var tokens := [PurposeBindingStateChecked, PurposeBindingRejected, GrantRejected, CredentialWithheld];
    match standing
    case Raised =>
      Refused(l, [PurposeBindingRejected, GrantRejected, CredentialWithheld], IntegrityMismatch)
    case Inactive(Unavailable) => Refused(l, tokens, PurposeBindingStatusUnavailable)
    case Inactive(Terminal) => Refused(l, tokens, GrantIsRevoked)
    case Admitted =>
      IssueChecked(grant, l, true)
    case _ => Refused(l, tokens, PurposeBindingDenied)
  }

  function IssueChecked(grant: Document, l: Looked, bound: bool): (plan: Plan)
    ensures Fine(plan)
    ensures RejectsCounting(plan, l != {})
  {
    match IssuedWithin(grant, false)
    case None => Raise
    case Some(within) =>
      if !within || !Is(grant, "companion_closure", "closed") then Reply(l, Quiet(), Rejected, [GrantRejected])
      else if !Is(grant, "passport_status", "current") then
        Reply(l, Quiet(), Rejected, [GrantRejected, CurrentStateChecked])
      else
        Issued(l,
               if bound then
                 [PurposeBindingValidated, PurposeBindingStateChecked, PurposeBindingPolicyChecked,
                  PurposeBindingAttenuationChecked, GrantIssued, TupleChecked, CredentialWithheld]
               else [GrantIssued, TupleChecked])
  }

  function Issued(l: Looked, tokens: seq<Token>): (plan: Plan)
    requires Reportable(tokens) && GrantIssued in tokens && ApplicationReceiptEmitted !in tokens && SessionFenced !in tokens
    ensures Fine(plan) && plan.Plan? && plan.decision == Accepted
  {
    Reply(l, Bumps({GrantIssuedCount, CredentialIssuedCount}), Accepted, tokens)
  }

  function Revoke(grant: Document): (plan: Plan)
    ensures Strict(plan) && RevokesOrReplays(plan)
  {
    if !Agree(grant, "revocation_request_hash", "recorded_revocation_request_hash") then Raise
    else if Is(grant, "status", "revoked") || Is(grant, "revocation_state", "revoked") then
      Reply({}, Quiet(), Replayed, [GrantRevoked, OriginalRevocationReplayed, RevocationConfirmed])
    else RevokedReply(RevocationTokens())
  }

  function RevokedReply(tokens: seq<Token>): (plan: Plan)
    requires Reportable(tokens) && Uneventful(tokens)
    ensures Strict(plan) && RevokesOrReplays(plan)
  {
    Reply({}, Revocation({}), Accepted, tokens)
  }

  predicate GrantCounts(k: Checks, op: Operation, d: Document, st: State) {
    op == IssueGrant && Section(d, "surface").Some? && IssuanceCounts(k, d, st, Section(d, "surface").value)
  }

  function Grant(k: Checks, op: Operation, d: Document, st: State): (plan: Plan)
    ensures Fine(plan)
  {
    match (Section(d, "surface"), Section(d, "grant"))
    case (Some(surface), Some(grant)) => GrantPlan(k, op, d, st, surface, grant)
    case _ => Raise
  }

  function GrantPlan(k: Checks, op: Operation, d: Document, st: State, surface: Document, grant: Document): (plan: Plan)
    ensures Fine(plan)
  {
    match op
    case IssueMcpGrant => IssueMcp(k, d, surface, grant)
    case IssueGrant => IssueGrantPlan(k, d, st, surface, grant)
    case RevokeGrant => Revoke(grant)
    case _ => Raise
  }

  // ----- Action Executor -----

  predicate Replays(mcp: Document) {
    Is(mcp, "binding_view_use", "current_completed_replay") || Is(mcp, "binding_view_use", "retained_completed_replay")
  }

  function ReplayStopped(): (plan: Plan)
    ensures Strict(plan)
  {
    ByPolicy({}, Quiet(), Stopped,
             [McpBindingRejected, McpResultSuppressed, OutcomeReconciliationRequired, AspAuthorityRetained,
              CredentialWithheld, RetrySuppressed],
             BindingInvalid)
  }

  function ExecuteMcp(k: Checks, d: Document): (plan: Plan)
    ensures StrictExecutor(plan, ExecuteMcpAction)
  {
    match k.mcp(d, Admission)
    case None =>
      ByPolicy({}, Quiet(), Rejected,
               [McpBindingRejected, ActionRejected, McpResultSuppressed, AspAuthorityRetained, CredentialWithheld],
               BindingInvalid)
    case Some(mcp) => Executed(Replays(mcp), k.mcp(d, Returning).Some?)
  }

  /** The plan of an executed action. */
  function Executing(l: Looked, decision: Decision, tokens: seq<Token>, reason: Option<Reason>): (plan: Plan)
    requires decision != Rejected && Reportable(tokens) && ActionAccepted in tokens
    requires ApplicationReceiptEmitted in tokens && SessionFenced !in tokens && GrantIssued !in tokens
    ensures Fine(plan) && ExecutorFine(plan, InvokeAction)
  {
    Plan(l, Effects(), decision, tokens, None, reason, None)
  }

  /** An admitted action, by whether it replays a completed one and whether the
      result validates. */
  function Executed(replays: bool, validated: bool): (plan: Plan)
    ensures StrictExecutor(plan, ExecuteMcpAction)
  {
    if !replays then TakenEffect(validated)
    else if !validated then ReplayStopped()
    else ReplayAnswered()
  }

  function ReplayAnswered(): (plan: Plan)
    ensures StrictExecutor(plan, ExecuteMcpAction)
  {
    Reply({}, Quiet(), Accepted,
          [McpBindingValidated, McpStructuredResultEmitted, ReceiptVerified, AspAuthorityUnchanged])
  }

  function TakenEffect(validated: bool): (plan: Plan)
    ensures StrictExecutor(plan, ExecuteMcpAction)
  {
    if validated then
      Reply({}, Effects(), Accepted,
            [McpBindingValidated, AspTupleValidated, ActionAccepted, ApplicationReceiptEmitted, McpStructuredResultEmitted])
    else Unresolved()
  }

  /** The action took effect but its result does not validate. */
  function Unresolved(): (plan: Plan)
    ensures StrictExecutor(plan, ExecuteMcpAction)
  {
    Executing({}, Stopped,
              [McpBindingRejected, ActionAccepted, ApplicationReceiptEmitted, McpResultSuppressed,
               OutcomeReconciliationRequired, AspAuthorityRetained, CredentialWithheld, RetrySuppressed],
              Some(BindingInvalid))
  }

  function ApplyCandidate(k: Checks, d: Document): (plan: Plan)
    ensures StrictExecutor(plan, ApplyHumanElicitationCandidate)
  {
    var e := k.elicitation(d);
    if e.None? || (e.value.kind != "edit" && e.value.kind != "redline") || e.value.disposition != "answered" then
      Refused({},
              [ElicitationBindingRejected, ElicitationCandidateRejected, ElicitationAuthorityRetained, ActionDispatchSuppressed],
              ElicitationInvalid)
    else if e.value.terminalReplay then
      Reply({}, Quiet(), Accepted,
            [ElicitationBindingValidated, ElicitationResponseAccepted, ElicitationAuthorityUnchanged])
    else Applied(e.value.kind == "edit")
  }

  function Applied(edited: bool): (plan: Plan)
    ensures StrictExecutor(plan, ApplyHumanElicitationCandidate)
  {
    Reply({}, Bumps({ApplicationProposalRevision, ApplicationProposalUpdateCount}), Accepted,
          [ElicitationBindingValidated,
           if edited then ElicitationCandidateRevalidated else ElicitationRedlineApplied,
           ElicitationPriorAuthorityInvalidated, ElicitationAuthorityUnchanged])
  }

  datatype RetryAfter = NotGiven | Delay(seconds: int) | Date(text: string) | Malformed

  function RetryAfterParts(k: Checks, value: Json): RetryAfter {
    if value == JStr("absent") then NotGiven
    else if !value.JObj? || value.members.Keys != {"form", "value"} then Malformed
    else
      var projected := value.members["value"];
      if value.members["form"] == JStr("delay_seconds") then
        if projected.JInt? && 1 <= projected.i <= SAFE_INTEGER then Delay(projected.i) else Malformed
      else if value.members["form"] == JStr("http_date") then
        if projected.JStr? && k.httpDate(projected.s) then Date(projected.s) else Malformed
      else Malformed
  }

  datatype Capacity = Capacity(operational: Document, response: Document, code: AspError, retryable: bool)

  function CapacityParts(d: Document): Option<Capacity> {
    match Section(d, "operational")
    case None => None
    case Some(operational) =>
      match Section(operational, "capacity_response")
      case None => None
      case Some(response) =>
        var code := if Is(response, "code", "rate_limited") then Some(RateLimited)
                    else if Is(response, "code", "capacity_state_unavailable") then Some(CapacityStateUnavailable)
                    else if Is(response, "code", "service_unavailable") then Some(ServiceUnavailable)
                    else None;
        var retryable := Field(response, "retryable");
        if code.None? || !retryable.JBool? || (code.value != RateLimited && "limit" in response) then None
        else Some(Capacity(operational, response, code.value, retryable.b))
  }

  /** May this Retry-After accompany this error body? */
  predicate RetryAfterFits(c: Capacity, r: RetryAfter) {
    match r
    case NotGiven => true
    case Malformed => false
    case Delay(n) =>
      c.retryable && (c.code == RateLimited ==>
                        (Section(c.response, "limit").Some?
                         && Equal(Field(Section(c.response, "limit").value, "retry_after_seconds"), JInt(n))))
    case Date(_) => c.retryable && c.code != RateLimited
  }

  function BindHttpCapacity(k: Checks, d: Document): (plan: Plan)
    ensures StrictExecutor(plan, BindHttpCapacityResponse)
  {
    match CapacityParts(d)
    case None => Raise
    case Some(c) =>
      var hint := if "http_retry_after_hint" in c.operational then c.operational["http_retry_after_hint"] else JStr("absent");
      var r := RetryAfterParts(k, hint);
      if !RetryAfterFits(c, r) then Raise
      else
        Refused({},
                [HttpCapacityResponseBound, HttpStatusMapped, HttpNoStoreApplied] + (if r == NotGiven then [] else [HttpRetryAfterBound]),
                c.code)
  }

  function Deliver(d: Document): (plan: Plan)
    ensures ExecutorPlan(plan, DeliverEvent) && RejectsCounting(plan, true)
  {
    match Section(d, "operational")
    case None => Raise
    case Some(operational) =>
      if !Is(operational, "limiter_state", "available") || !Is(operational, "event_capacity", "available") then
        Queued()
      else
        Delivered()
  }

  function Delivered(): (plan: Plan)
    ensures ExecutorPlan(plan, DeliverEvent) && RejectsCounting(plan, true)
  {
    Reply({}, FirstDelivery(), Accepted, [EventFirstDeliveryAdmitted, EventTransmitted])
  }

  function Queued(): (plan: Plan)
    ensures ExecutorPlan(plan, DeliverEvent) && RejectsCounting(plan, true)
  {
    Reply({}, Bumps({OperationalEventQueuedCount}), Rejected, [OperationalCapacityRejected, EventDeliveryQueued])
  }

  function Retransmit(d: Document): (plan: Plan)
    ensures StrictExecutor(plan, RetransmitEvent)
  {
    if Section(d, "operational").None? then Raise
    else
      Reply({}, Bumps({OperationalEventTransmissionCount}), Accepted,
            [EventDeliveryRetransmitted, EventIdentityReused, EventTransmitted])
  }

  function Replay(k: Checks, d: Document, st: State, execution: Document): (plan: Plan)
    ensures ExecutorPlan(plan, ReplayAction)
    ensures RejectsCounting(plan, LooksUp(k, d, st))
  {
    if "purpose_binding" !in d then ReplayChecked(d, execution, {})
    else
      match k.purpose(d)
      case None => Refused({}, [PurposeBindingRejected, ActionRejected], IntegrityMismatch)
      case Some(p) =>
        var (l, standing) := PreAdmission(p, st, true); ReplayStanding(d, execution, l, standing)
  }

  function ReplayStanding(d: Document, execution: Document, l: Looked, standing: Standing): (plan: Plan)
    ensures ExecutorPlan(plan, ReplayAction)
    ensures (standing != Raised && standing != Mismatched ==> l != {}) ==> RejectsCounting(plan, l != {})
  {
    match standing
    case Raised => Refused(l, [PurposeBindingRejected, ActionRejected], IntegrityMismatch)
    case Mismatched => Refused(l, [PurposeBindingRejected, ActionRejected], SessionInvalid)
    case Admitted => ReplayChecked(d, execution, l)
    case Inactive(condition) =>
      Fenced(l, condition == Terminal, Rejected, [ActionRejected, RetrySuppressed], ConditionError(condition))
    case Denied => Fenced(l, false, Rejected, [ActionRejected, RetrySuppressed], PurposeBindingDenied)
  }

  function ReplayChecked(d: Document, execution: Document, l: Looked): (plan: Plan)
    ensures ExecutorPlan(plan, ReplayAction)
    ensures RejectsCounting(plan, l != {})
  {
    if !Agree(execution, "input_schema_hash", "recorded_input_schema_hash") then
      Refused(l, [InputSchemaChecked, NormalizationChecked, ActionRejected, ApprovalNotReopened],
              IdempotencyConflict)
    else if !Is(execution, "normalization", "fixed_point") then
      Refused(l, [InputSchemaChecked, NormalizationChecked, ActionRejected], InputNotNormalized)
    else
      ReplayCompared(Field(d, "operational") != JNull,
                     Agree(execution, "input_hash", "recorded_input_hash")
                     && Agree(execution, "execution_hash", "recorded_execution_hash")
                     && Agree(execution, "approval_hash", "recorded_approval_hash"),
                     l)
  }

  function ReplayCompared(operational: bool, same: bool, l: Looked): (plan: Plan)
    ensures ExecutorPlan(plan, ReplayAction)
    ensures RejectsCounting(plan, l != {})
  {
    if !same then
      Refused(l, if operational then [ActionRejected] else [ActionRejected, ApprovalNotReopened],
              IdempotencyConflict)
    else
      Reply(l, Quiet(), Replayed, if operational then [OriginalResultReplayed, OperationalIdentityReused]
            else [OriginalResultReplayed, SameReceiptReplayed])
  }

  /** The checks of an invocation before its Grant is looked at. */
  function ProofFault(execution: Document): (plan: Option<Plan>)
    ensures plan.Some? ==> StrictExecutor(plan.value, InvokeAction)
  {
    if !Is(execution, "normalization", "fixed_point") then
      Some(Refused({}, [InputSchemaChecked, NormalizationChecked, ActionRejected], InputNotNormalized))
    else if !Agree(execution, "sender_credential_audience", "bound_credential_audience") then
      Some(Refused({}, [CredentialRejected, TupleChecked, ActionRejected], GrantProofInvalid))
    else if !Agree(execution, "proof_session_binding", "bound_session_binding") then
      Some(Refused({}, [ProofRejected, TupleChecked, ActionRejected], GrantProofInvalid))
    else None
  }

  /** And those before its purpose is looked at. */
  function GrantFault(grant: Document, execution: Document): (plan: Option<Plan>)
    ensures plan.Some? ==> StrictExecutor(plan.value, InvokeAction)
  {
    if !Agree(grant, "claimed_issuer", "issuer") then
      Some(Refused({}, [ActionRejected, TupleChecked], IntegrityMismatch))
    else if !Is(grant, "status", "active") || Is(grant, "revocation_state", "revoked") then
      Some(Refused({}, [ActionRejected, CurrentStateChecked], GrantIsRevoked))
    else if !Agree(execution, "runtime_identity", "bound_runtime_identity")
            || !Is(execution, "attestation", "current") then
      Some(Refused({}, [ActionRejected, CurrentStateChecked], RuntimeUntrusted))
    else None
  }

  function Invoke(k: Checks, d: Document, st: State, grant: Document, execution: Document): (plan: Plan)
    ensures ExecutorPlan(plan, InvokeAction)
    ensures RejectsCounting(plan, ProofFault(execution).None? && GrantFault(grant, execution).None? && InvocationCounts(k, d, st, execution))
  {
    if ProofFault(execution).Some? then ProofFault(execution).value
    else if GrantFault(grant, execution).Some? then GrantFault(grant, execution).value
    else InvokeForPurpose(k, d, st, execution)
  }

  /** A rejected invocation has counted a look-up or a policy denial. */
  predicate InvocationCounts(k: Checks, d: Document, st: State, execution: Document) {
    if "purpose_binding" in d then LooksUp(k, d, st) else !Is(execution, "policy", "allow")
  }

  function InvokeForPurpose(k: Checks, d: Document, st: State, execution: Document): (plan: Plan)
    ensures ExecutorPlan(plan, InvokeAction)
    ensures RejectsCounting(plan, InvocationCounts(k, d, st, execution))
  {
    if "purpose_binding" !in d then
      InvokeChecked(d, execution, {}, false)
    else
      match k.purpose(d)
      case None => Refused({}, [PurposeBindingRejected, ActionRejected], IntegrityMismatch)
      case Some(p) =>
        var (l, standing) := PreAdmission(p, st, true);
        if standing != Admitted then InvokeRefused(l, standing)
        else if !p.informational then
          Refused(l, [PurposeBindingStateChecked, PurposeBindingPolicyChecked, PurposeBindingGoalAuthorityRejected,
                      PurposeBindingRejected, ActionRejected],
                  PurposeBindingDenied)
        else
          InvokeChecked(d, execution, l, true)
  }

  function InvokeRefused(l: Looked, standing: Standing): (plan: Plan)
    requires standing != Admitted
    ensures ExecutorPlan(plan, InvokeAction)
    ensures (standing != Raised && standing != Mismatched ==> l != {}) ==> RejectsCounting(plan, l != {})
  {
    match standing
    case Raised => Refused(l, [PurposeBindingRejected, ActionRejected], IntegrityMismatch)
    case Mismatched => Refused(l, [PurposeBindingRejected, ActionRejected], SessionInvalid)
    case Inactive(condition) =>
      Fenced(l, condition == Terminal, Rejected, [ActionRejected], ConditionError(condition))
    case Denied =>
      Refused(l, [PurposeBindingStateChecked, PurposeBindingPolicyChecked, PurposeBindingRejected, ActionRejected],
              PurposeBindingDenied)
  }

  function InvokeChecked(d: Document, execution: Document, l: Looked, bound: bool): (plan: Plan)
    ensures ExecutorPlan(plan, InvokeAction)
    ensures RejectsCounting(plan, l != {} || !Is(execution, "policy", "allow"))
  {
    if !Is(execution, "policy", "allow") then
      Fault(l, Bumps({ReceiptApplicationCount}), Rejected,
            [ActionRejected, DenialRecorded, ApplicationReceiptEmitted], RiskDenied)
    else if Field(d, "operational") == JNull then Invoked(l, bound)
    else match Section(d, "operational") case None => Raise case Some(operational) => InvokeWithin(operational, l)
  }

  function Invoked(l: Looked, bound: bool): (plan: Plan)
    ensures ExecutorPlan(plan, InvokeAction)
    ensures plan.Plan? && plan.decision == Accepted
  {
    Executing(l, Accepted,
              if bound then
                [PurposeBindingValidated, PurposeBindingStateChecked, PurposeBindingPolicyChecked,
                 PurposeBindingSessionBound, ActionAccepted, TupleChecked, CurrentStateChecked, ApplicationReceiptEmitted]
              else [ActionAccepted, TupleChecked, CurrentStateChecked, ApplicationReceiptEmitted],
              None)
  }

  /** An invocation under operational limits. */
  function InvokeWithin(operational: Document, l: Looked): (plan: Plan)
    ensures ExecutorPlan(plan, InvokeAction)
    ensures RejectsCounting(plan, l != {})
  {
    if !Is(operational, "limiter_state", "available") then
      Refused(l, [OperationalCapacityRejected, OperationalStateRetained], CapacityStateUnavailable)
    else if !Is(operational, "action_capacity", "available") then
      Refused(l, [OperationalLimitsChecked, OperationalCapacityRejected], RateLimited)
    else
      InvokedWithin(l)
  }

  function InvokedWithin(l: Looked): (plan: Plan)
    ensures plan.Plan? && plan.decision == Accepted
    ensures ExecutorPlan(plan, InvokeAction)
  {
    Reply(l, LimitedEffects(), Accepted,
          [OperationalLimitsChecked, OperationalAdmissionCommitted, ActionAccepted, ApplicationReceiptEmitted])
  }

  /** A rejected call of the Action Executor has counted something: a queued
      event, a look-up or a policy denial. */
  predicate ActionCounts(k: Checks, op: Operation, d: Document, st: State) {
    && Section(d, "grant").Some? && Section(d, "execution").Some?
    && ActionCountsOn(k, op, d, st, Section(d, "grant").value, Section(d, "execution").value)
  }

  predicate ActionCountsOn(k: Checks, op: Operation, d: Document, st: State, grant: Document, execution: Document) {
    match op
    case DeliverEvent => true
    case ReplayAction => LooksUp(k, d, st)
    case InvokeAction =>
      ProofFault(execution).None? && GrantFault(grant, execution).None? && InvocationCounts(k, d, st, execution)
    case _ => false
  }

  function Action(k: Checks, op: Operation, d: Document, st: State): (plan: Plan)
    ensures ExecutorPlan(plan, op)
  {
    match (Section(d, "grant"), Section(d, "execution"))
    case (Some(grant), Some(execution)) => ActionPlan(k, op, d, st, grant, execution)
    case _ => Raise
  }

  function ActionPlan(k: Checks, op: Operation, d: Document, st: State, grant: Document, execution: Document): (plan: Plan)
    ensures ExecutorPlan(plan, op)
  {
    match op
    case ExecuteMcpAction => ExecuteMcp(k, d)
    case ApplyHumanElicitationCandidate => ApplyCandidate(k, d)
    case BindHttpCapacityResponse => BindHttpCapacity(k, d)
    case DeliverEvent => Deliver(d)
    case RetransmitEvent => Retransmit(d)
    case ReplayAction => Replay(k, d, st, execution)
    case InvokeAction => Invoke(k, d, st, grant, execution)
    case _ => Raise
  }

  // ----- Receipt Producer -----

  datatype ProducerRole = Application | Runtime

  function Receipt(op: Operation, d: Document, role: Option<ProducerRole>): (plan: Plan)
    ensures Strict(plan)
  {
    match (role, Section(d, "receipt"))
    case (Some(role), Some(receipt)) =>
      if op == VerifyReceipt then
        if !Is(receipt, "integrity", "valid") then Refused({}, [ReceiptRejected], IntegrityMismatch)
        else Reply({}, Quiet(), Accepted, [ReceiptVerified])
      else if op != ProduceReceipt then Raise
      else if !Is(receipt, "authority_use", "prohibited") then Reply({}, Quiet(), Rejected, [ReceiptRejected])
      else if !Is(receipt, "claimed_observation", if role == Application then "application_effect" else "runtime_observation")
              || !Is(receipt, "integrity", "valid") || !Is(receipt, "origin", "observed") then
        Refused({}, [ReceiptRejected], IntegrityMismatch)
      else Produced(role)
    case _ => Raise
  }

  function Produced(role: ProducerRole): (plan: Plan)
    ensures Strict(plan)
  {
    if role == Application then
      Reply({}, Bumps({ReceiptApplicationCount}), Accepted, [ApplicationReceiptEmitted, ReceiptVerified])
    else
      Reply({}, Bumps({ReceiptRuntimeCount}), Accepted, [RuntimeReceiptEmitted, ReceiptVerified])
  }

  // ----- Runtime Mediator -----

  function MediateMcp(k: Checks, d: Document): (plan: Plan)
    ensures Strict(plan)
  {
    match k.mcp(d, PreDispatch)
    case None =>
      ByPolicy({}, Quiet(), Rejected,
               [McpBindingRejected, MediationStopped, McpResultSuppressed, AspAuthorityRetained, CredentialWithheld,
                RetrySuppressed],
               BindingInvalid)
    case Some(mcp) => Mediated(Replays(mcp), k.mcp(d, Returning).Some?)
  }

  function Mediated(replays: bool, validated: bool): (plan: Plan)
    ensures Strict(plan)
  {
    if !replays then Forwarded(validated)
    else if !validated then ReplayStopped()
    else
      Reply({}, Quiet(), Accepted,
            [McpBindingValidated, McpStructuredResultValidated, ReceiptVerified, CredentialWithheld, AspAuthorityUnchanged])
  }

  /** An action that is forwarded to the application. */
  function Forwarded(validated: bool): (plan: Plan)
    ensures Strict(plan)
  {
    if validated then
      Reply({}, Bumps({ActionDispatchCount, RuntimeStoredGrantWidth}), Accepted,
            [McpBindingValidated, AspTupleValidated, TypedRequestForwarded, McpStructuredResultValidated,
             CredentialWithheld, CancellationAdvisory, AspAuthorityUnchanged])
    else ForwardedUnresolved()
  }

  function ForwardedUnresolved(): (plan: Plan)
    ensures Strict(plan)
  {
    ByPolicy({}, Bumps({ActionDispatchCount, RuntimeStoredGrantWidth}), Stopped,
             [McpBindingRejected, MediationStopped, TypedRequestForwarded, McpResultSuppressed,
              OutcomeReconciliationRequired, AspAuthorityRetained, CredentialWithheld, RetrySuppressed],
             BindingInvalid)
  }

  function Simulate(k: Checks, d: Document): (plan: Plan)
    ensures Strict(plan)
  {
    if !k.impact(d) then
      Reply({}, Quiet(), Stopped,
            [ImpactSimulationBindingRejected, ImpactSimulationSuppressed, ConsentPreviewRetained,
             ImpactSimulationAuthorityUnchanged, ApplicationDryRunSuppressed,
             ImpactSimulationAgentProjectionSuppressed])
    else
      Reply({}, Bumps({RuntimeImpactSimulationPresentationCount}), Accepted,
            [ImpactSimulationValidated, ImpactSimulationPresented, ConsentPreviewRetained,
             ImpactSimulationAuthorityUnchanged, ApplicationDryRunSuppressed, ImpactSimulationAgentProjectionSuppressed])
  }

  function RenderRisk(k: Checks, d: Document): (plan: Plan)
    ensures Strict(plan)
  {
    if !k.riskProjected(d) then
      Reply({}, Quiet(), Stopped,
            [RiskExplanationBindingRejected, RiskExplanationSuppressed, CanonicalRiskPresented,
             CanonicalEffectsPresented, RiskExplanationAuthorityUnchanged, AgentInstructionSuppressed])
    else
      Reply({}, Bumps({RuntimeRiskExplanationPresentationCount}), Accepted,
            [RiskExplanationSelected, RiskExplanationRenderedLiteral, CanonicalRiskPresented, CanonicalEffectsPresented,
             RiskExplanationAuthorityUnchanged, AgentInstructionSuppressed])
  }

  /** The kind a request claims before it is validated. */
  predicate AsksForStepUp(d: Document) {
    Section(d, "elicitation").Some?
    && Section(Section(d, "elicitation").value, "request").Some?
    && Is(Section(Section(d, "elicitation").value, "request").value, "kind", "step_up")
  }

  function MediateElicitation(k: Checks, d: Document): (plan: Plan)
    ensures Strict(plan)
  {
    match k.elicitation(d)
    case None =>
      Refused({}, if AsksForStepUp(d) then
                [ElicitationBindingRejected, StepUpResultRejected, HumanSecretWithheld, ElicitationAuthorityRetained]
              else
                [ElicitationBindingRejected, ElicitationResponseSuppressed, ElicitationAuthorityRetained,
                 ActionDispatchSuppressed],
              ElicitationInvalid)
    case Some(e) =>
      match Section(d, "elicitation")
      case None => Raise
      case Some(elicitation) =>
        match Section(elicitation, "request")
        case None => Raise
        case Some(request) =>
          if e.terminalReplay then
            Reply({}, Quiet(), Accepted,
                  [ElicitationBindingValidated, ElicitationResponseAccepted, ElicitationAuthorityUnchanged])
          else if "revision" !in request then Raise
          else Answer(e.disposition == "answered", e.kind, request["revision"])
  }

  function Answer(answered: bool, kind: string, revision: Json): (plan: Plan)
    ensures Strict(plan)
  {
    if answered && kind == "clarify" then
      Answered({}, revision,
               [ElicitationBindingValidated, ElicitationRequestPresented, ElicitationResponseAccepted,
                ElicitationAuthorityUnchanged])
    else if answered && kind == "choose" then
      Answered({}, revision,
               [ElicitationBindingValidated, ElicitationChoiceValidated, ElicitationResponseAccepted,
                ElicitationAuthorityUnchanged])
    else if !answered || kind == "edit" || kind == "redline" then
      Answered({}, revision, [ElicitationBindingValidated, ElicitationResponseAccepted, ElicitationAuthorityUnchanged])
    else
      Answered({RuntimeStepUpVerifiedCount}, revision,
               [ElicitationBindingValidated, StepUpResultVerified, HumanSecretWithheld, ElicitationAuthorityUnchanged])
  }

  function Answered(counted: set<StateName>, revision: Json, tokens: seq<Token>): (plan: Plan)
    requires counted <= {RuntimeStepUpVerifiedCount}
    requires Reportable(tokens) && Uneventful(tokens)
    ensures Strict(plan)
  {
    Reply({}, Changes({RuntimeElicitationResponseCount} + counted, map[RuntimeElicitationRevision := revision]), Accepted,
          tokens)
  }

  function PresentAhp(k: Checks, d: Document): (plan: Plan)
    ensures Strict(plan)
  {
    match k.ahp(d, "present", "session.state")
    case None =>
      ByPolicy({}, Quiet(), Rejected,
               [AhpBindingRejected, AhpUiUpdateSuppressed, AspAuthorityRetained, ActionDispatchSuppressed],
               BindingInvalid)
    case Some(ahp) =>
      if "representation_revision" !in ahp then Raise
      else
        Reply({}, Changes({RuntimeAhpPresentationCount}, map[RuntimeAhpRepresentationRevision := ahp["representation_revision"]]),
              Accepted,
              [AhpBindingValidated, AspTupleValidated, AhpUiStatePresented, AspAuthorityUnchanged])
  }

  /** The Retry-After of a response bound to HTTP; None if the binding is invalid. */
  function HttpCapacity(k: Checks, d: Document): Option<RetryAfter> {
    match (CapacityParts(d), Section(d, "transport"))
    case (Some(c), Some(t)) =>
      var r := RetryAfterParts(k, Field(t, "retry_after"));
      if t.Keys == {"binding", "authentication", "status", "cache_control_no_store", "retry_after"}
         && Is(t, "binding", "http") && Is(t, "authentication", "authenticated")
         && Equal(Field(t, "status"), JInt(if c.code == RateLimited then 429 else 503))
         && Field(t, "cache_control_no_store") == JBool(true)
         && RetryAfterFits(c, r)
      then Some(r) else None
    case _ => None
  }

  function HandleHttpCapacity(k: Checks, d: Document, execution: Document): (plan: Plan)
    ensures Strict(plan)
  {
    match HttpCapacity(k, d)
    case None =>
      Reply({}, Quiet(), Stopped,
            [HttpCapacityBindingRejected, CapacityResponseRejected, OperationalStateRetained, RetrySuppressed])
    case Some(r) =>
      Bound(r != NotGiven, HandleCapacity(d, execution))
  }

  /** What is reported of the HTTP binding, and only then. */
  function HttpTokens(retryAfter: bool): (tokens: seq<Token>)
    ensures Reportable(tokens) && Plain(tokens) && SessionFenced !in tokens
  {
    [HttpCapacityBindingValidated, HttpStatusMapped, HttpNoStoreValidated]
    + (if retryAfter then [HttpRetryAfterValidated] else [])
  }

  predicate Unbound(p: Plan) { p.Plan? ==> forall t :: t in p.tokens ==> t !in HttpTokens(true) }

  /** The result for a capacity response that came over HTTP. */
  function Bound(retryAfter: bool, p: Plan): (plan: Plan)
    requires Strict(p) && Unbound(p)
    ensures Strict(plan)
  {
    match p
    case Raise => Raise
    case Plan(l, c, decision, tokens, error, policyReason, matchReason) =>
      assert forall t :: t in HttpTokens(retryAfter) ==> t in HttpTokens(true);
      DistinctConcat(HttpTokens(retryAfter), tokens);
      Plan(l, c, decision, HttpTokens(retryAfter) + tokens, error, policyReason, matchReason)
  }

  function HandleCapacity(d: Document, execution: Document): (plan: Plan)
    ensures Strict(plan) && Unbound(plan)
  {
    match CapacityParts(d) case None => Raise case Some(c) => Handle(c, execution)
  }

  function Handle(c: Capacity, execution: Document): (plan: Plan)
    ensures Strict(plan) && Unbound(plan)
  {
    if c.code == ServiceUnavailable && !Is(execution, "outcome_state", "known") then
      Fault({}, Quiet(), Stopped,
            [CapacityResponseRejected, OutcomeReconciliationRequired, RetrySuppressed], OutcomeUnknown)
    else if c.code == CapacityStateUnavailable then HandleCapacityState(c)
    else if c.code == ServiceUnavailable then HandleService(c)
    else HandleRateLimit(c)
  }

  /** A handled response. */
  function Handled(values: map<StateName, Json>, retries: bool, decision: Decision, tokens: seq<Token>): (plan: Plan)
    requires values.Keys <= {RuntimeCapacityRecoveryPending, RuntimeCapacityDecisionPending, RuntimeRetryDelayFloorSeconds}
    requires decision != Rejected && Reportable(tokens) && Uneventful(tokens)
    requires forall t :: t in tokens ==> t !in HttpTokens(true)
    ensures Strict(plan) && Unbound(plan)
  {
    Reply({}, Cleared(values, retries), decision, tokens)
  }

  function HandleCapacityState(c: Capacity): (plan: Plan)
    ensures Strict(plan) && Unbound(plan)
  {
    if !c.retryable then
      Handled(map[RuntimeCapacityRecoveryPending := JBool(false)], false, Stopped,
              [CapacityResponseValidated, OperationalStateRetained, RetrySuppressed])
    else if !Is(c.operational, "limiter_state", "available") then
      Handled(map[RuntimeCapacityRecoveryPending := JBool(true)], false, Deferred,
              [CapacityResponseValidated, AuthoritativeCapacityRecoveryRequired, OperationalStateRetained, RetryDeferred])
    else
      Handled(map[RuntimeCapacityRecoveryPending := JBool(false)], true, Accepted,
              [CapacityResponseValidated, AuthoritativeCapacityRecoveryConfirmed, OperationalStateRetained,
               LocalBackoffSelected, SemanticIdentityReused, PerAttemptAuthenticationApplied, RetryScheduled])
  }

  function HandleService(c: Capacity): (plan: Plan)
    ensures Strict(plan) && Unbound(plan)
  {
    if !c.retryable then
      Handled(map[RuntimeCapacityDecisionPending := JBool(false)], false, Stopped,
              [CapacityResponseValidated, RetrySuppressed])
    else
      Handled(map[RuntimeCapacityDecisionPending := JBool(true)], true, Accepted,
              [CapacityResponseValidated, CapacityDecisionRequired, LocalBackoffSelected, SemanticIdentityReused,
               PerAttemptAuthenticationApplied, RetryScheduled])
  }

  function HandleRateLimit(c: Capacity): (plan: Plan)
    ensures Strict(plan) && Unbound(plan)
  {
    var limit := Field(c.response, "limit");
    var delay := if limit.JObj? then Field(limit.members, "retry_after_seconds") else JNull;
    if !c.retryable then Handled(map[], false, Stopped, [CapacityResponseValidated, RetrySuppressed])
    else if limit != JNull && !limit.JObj? then Raise
    else if delay != JNull && (!delay.JInt? || delay.i < 1) then Raise
    else RetryLimited(delay)
  }

  function RetryLimited(delay: Json): (plan: Plan)
    ensures Strict(plan) && Unbound(plan)
  {
    if delay == JNull then
      Handled(map[], true, Accepted,
              [CapacityResponseValidated, LocalBackoffSelected, SemanticIdentityReused, PerAttemptAuthenticationApplied,
               RetryScheduled])
    else
      Handled(map[RuntimeRetryDelayFloorSeconds := delay], true, Accepted,
              [CapacityResponseValidated, RetryDelayFloorSatisfied, SemanticIdentityReused,
               PerAttemptAuthenticationApplied, RetryScheduled])
  }

  predicate ConfirmedReturn(p: Purpose) {
    && p.request == p.consent && p.grant == p.consent && p.returned == p.consent
    && p.advertised && p.ready && p.withinLifetime && p.linked
  }

  /** A rejected mediation has counted a look-up. */
  predicate MediationCounts(k: Checks, d: Document, st: State, grant: Document) {
    Agree(grant, "claimed_issuer", "issuer") && LooksUp(k, d, st) && ConfirmedReturn(k.purpose(d).value)
  }

  function MediateGrantPlan(k: Checks, d: Document, st: State, grant: Document, runtime: Document): (plan: Plan)
    ensures Fine(plan)
    ensures RejectsCounting(plan, MediationCounts(k, d, st, grant))
  {
    if !Agree(grant, "claimed_issuer", "issuer") then
      Refused({}, [GrantRejected, TupleChecked, MediationStopped], IntegrityMismatch)
    else if "purpose_binding" !in d then StoreGrant(runtime, {}, false)
    else
      var mismatch := [PurposeBindingRejected, GrantRejected, MediationStopped];
      match k.purpose(d)
      case None => Refused({}, mismatch, IntegrityMismatch)
      case Some(p) =>
        if !ConfirmedReturn(p) then Refused({}, mismatch, IntegrityMismatch)
        else var (l, standing) := PreAdmission(p, st, true); MediateStanding(runtime, l, standing, p.informational)
  }

  function MediateStanding(runtime: Document, l: Looked, standing: Standing, informational: bool): (plan: Plan)
    ensures Fine(plan)
    ensures RejectsCounting(plan, l != {})
  {
    match standing
    case Raised =>
      Refused(l, [PurposeBindingRejected, GrantRejected, MediationStopped], IntegrityMismatch)
    case Mismatched =>
      Refused(l, [PurposeBindingRejected, GrantRejected, MediationStopped], SessionInvalid)
    case Inactive(condition) =>
      Fenced(l, condition == Terminal, Stopped, [MediationStopped], ConditionError(condition))
    case Denied =>
      Refused(l, [PurposeBindingStateChecked, PurposeBindingPolicyChecked, PurposeBindingRejected, MediationStopped],
              PurposeBindingDenied)
    case Admitted => if informational then StoreGrant(runtime, l, true) else MediateGoal(l)
  }

  function MediateGoal(l: Looked): (plan: Plan)
    ensures Fine(plan)
    ensures RejectsCounting(plan, l != {})
  {
    Refused(l, [PurposeBindingStateChecked, PurposeBindingPolicyChecked, PurposeBindingGoalAuthorityRejected,
                PurposeBindingRejected, MediationStopped],
            PurposeBindingDenied)
  }

  function StoreGrant(runtime: Document, l: Looked, bound: bool): (plan: Plan)
    ensures Fine(plan)
    ensures RejectsCounting(plan, l != {})
  {
    if !Is(runtime, "returned_grant_width", "equal") then
      Refused(l, [GrantRejected, MediationStopped], IntegrityMismatch)
    else if !Is(runtime, "capability_match", "current") then
      ByMatch(l, Quiet(), Rejected, [MediationStopped], InputUnknown)
    else
      Reply(l, Bumps({RuntimeStoredGrantWidth}), Accepted,
            if bound then
              [PurposeBindingValidated, PurposeBindingStateChecked, PurposeBindingPolicyChecked,
               PurposeBindingSessionBound, TupleChecked]
            else [TupleChecked])
  }

  function MediateActionPlan(d: Document, grant: Document, runtime: Document): (plan: Plan)
    ensures Strict(plan)
  {
    if !Is(runtime, "credential_release", "none") then
      ByPolicy({}, Quiet(), Rejected, [LocalDenialRecorded, MediationStopped], LocalPolicyDenied)
    else if !Is(runtime, "revocation_state", "current") || Is(grant, "revocation_state", "unknown") then
      Reply({}, Changes({}, map[GrantLifecycle := JStr("inactive")]), Stopped, [CurrentStateChecked, MediationStopped])
    else if !Is(runtime, "remote_path", "known") then
      ByMatch({}, Quiet(), Stopped, [CurrentStateChecked, MediationStopped], InputUnknown)
    else if !Is(runtime, "training_policy", "exact") then
      Refused({}, [LocalDenialRecorded, MediationStopped], TrainingUseDenied)
    else Mediation(Field(d, "operational") != JNull)
  }

  /** A mediated action is planned under limits or forwarded. */
  function Mediation(operational: bool): (plan: Plan)
    ensures Strict(plan)
  {
    if operational then
      Reply({}, Bumps({RuntimeLocalWindowCount, RuntimeLocalInFlightCount}), Accepted,
            [OperationalLimitsChecked, OperationalPlanningReserved])
    else
      Reply({}, Bumps({ActionDispatchCount, RuntimeStoredGrantWidth}), Accepted,
            [TypedRequestForwarded, ActionAccepted, TupleChecked])
  }

  function RetryUnknown(execution: Document): (plan: Plan)
    ensures Strict(plan)
  {
    if Is(execution, "outcome_state", "unknown") && Is(execution, "retry_key", "new") then
      Fault({}, Quiet(), Stopped, [MediationStopped], OutcomeUnknown)
    else Raise
  }

  predicate MediateCounts(k: Checks, op: Operation, d: Document, st: State) {
    op == MediateGrant && Section(d, "grant").Some? && MediationCounts(k, d, st, Section(d, "grant").value)
  }

  function Mediate(k: Checks, op: Operation, d: Document, st: State): (plan: Plan)
    ensures Fine(plan)
  {
    match (Section(d, "grant"), Section(d, "execution"), Section(d, "runtime"))
    case (Some(grant), Some(execution), Some(runtime)) => MediatePlan(k, op, d, st, grant, execution, runtime)
    case _ => Raise
  }

  function MediatePlan(k: Checks, op: Operation, d: Document, st: State,
                       grant: Document, execution: Document, runtime: Document): (plan: Plan)
    ensures Fine(plan)
  {
    match op
    case MediateMcpAction => MediateMcp(k, d)
    case SimulateImpact => Simulate(k, d)
    case RenderRiskExplanation => RenderRisk(k, d)
    case MediateHumanElicitation => MediateElicitation(k, d)
    case PresentAhpSession => PresentAhp(k, d)
    case HandleHttpCapacityResponse => HandleHttpCapacity(k, d, execution)
    case HandleCapacityResponse => HandleCapacity(d, execution)
    case MediateGrant => MediateGrantPlan(k, d, st, grant, runtime)
    case RetryOutcome => RetryUnknown(execution)
    case MediateAction => MediateActionPlan(d, grant, runtime)
    case _ => Raise
  }

  // ----- Agent Adapter -----

  function AdaptMcp(k: Checks, d: Document): (plan: Plan)
    ensures Strict(plan)
  {
    match k.mcp(d, Translation)
    case None =>
      ByPolicy({}, Quiet(), Rejected,
               [McpBindingRejected, AdapterRequestRejected, McpResultSuppressed, AspAuthorityRetained, CredentialWithheld],
               BindingInvalid)
    case Some(_) =>
      Reply({}, Bumps({AdapterForwardedCount}), Accepted,
            [McpBindingValidated, TypedRequestForwarded, CredentialWithheld, AspAuthorityUnchanged])
  }

  /** Does the projection for the agent carry a secret? */
  predicate LeaksSecret(d: Document) {
    Section(d, "elicitation").Some?
    && Section(Section(d, "elicitation").value, "agent_projection").Some?
    && var projection := Section(Section(d, "elicitation").value, "agent_projection").value;
    !Is(projection, "secret_material", "absent") || Is(projection, "exposure", "full_step_up_response")
  }

  function ProjectAnswer(k: Checks, d: Document): (plan: Plan)
    ensures Strict(plan)
  {
    match k.agentProjection(d)
    case None =>
      Refused({}, if LeaksSecret(d) then
                [ElicitationBindingRejected, ElicitationResponseSuppressed, HumanSecretWithheld, ElicitationAuthorityRetained]
              else
                [ElicitationBindingRejected, ElicitationResponseSuppressed, ElicitationAuthorityRetained,
                 ActionDispatchSuppressed],
              ElicitationInvalid)
    case Some(e) =>
      Reply({}, if e.terminalReplay then Quiet() else Bumps({AdapterForwardedCount}), Accepted,
            [ElicitationBindingValidated, ElicitationResponseAccepted, HumanSecretWithheld, ElicitationAuthorityUnchanged])
  }

  function TranslateAhp(k: Checks, d: Document): (plan: Plan)
    ensures Strict(plan)
  {
    if k.ahp(d, "invoke", "action.request").None? then
      ByPolicy({}, Quiet(), Rejected,
               [AhpBindingRejected, AdapterRequestRejected, AspAuthorityRetained, CredentialWithheld],
               BindingInvalid)
    else
      Reply({}, Bumps({AdapterForwardedCount}), Accepted,
            [AhpBindingValidated, AspTupleValidated, AhpControlTranslated, TypedRequestForwarded, AspAuthorityUnchanged])
  }

  function Translate(adapter: Document, receipt: Document): (plan: Plan)
    ensures Strict(plan)
  {
    if !Is(adapter, "credential_input", "none") then
      Reply({}, Quiet(), Rejected, [AdapterRequestRejected, LocalDenialRecorded])
    else if !Is(adapter, "action_authority", "exact") then
      Reply({}, Quiet(), Rejected, [AdapterRequestRejected])
    else if !Is(adapter, "receipt_evidence", "observed") || !Is(receipt, "origin", "observed") then
      Refused({}, [AdapterRequestRejected, ReceiptRejected], IntegrityMismatch)
    else Reply({}, Bumps({AdapterForwardedCount}), Accepted, [TypedRequestForwarded])
  }

  function RetryAdapted(execution: Document, adapter: Document): (plan: Plan)
    ensures Strict(plan)
  {
    if Is(execution, "outcome_state", "unknown") && Is(adapter, "unknown_outcome_handling", "retry") then
      Fault({}, Quiet(), Stopped, [AdapterRequestRejected], OutcomeUnknown)
    else Raise
  }

  function Adapt(k: Checks, op: Operation, d: Document): (plan: Plan)
    ensures Strict(plan)
  {
    match (Section(d, "execution"), Section(d, "adapter"), Section(d, "receipt"))
    case (Some(execution), Some(adapter), Some(receipt)) =>
      (match op
       case AdaptMcpAction => AdaptMcp(k, d)
       case ProjectHumanElicitationAnswer => ProjectAnswer(k, d)
       case TranslateAhpAction => TranslateAhp(k, d)
       case RetryOutcome => RetryAdapted(execution, adapter)
       case TranslateAction => Translate(adapter, receipt)
       case _ => Raise)
    case _ => Raise
  }

  // ----- choosing the role -----

  datatype Family = App | RuntimeFamily

  function FamilyFor(p: Profile, role: Option<ProducerRole>): Option<Family> {
    match p
    case SurfacePublisher => Some(App)
    case GrantIssuer => Some(App)
    case ActionExecutor => Some(App)
    case RuntimeMediator => Some(RuntimeFamily)
    case AgentAdapter => Some(RuntimeFamily)
    case ReceiptProducer =>
      (match role case Some(Application) => Some(App) case Some(Runtime) => Some(RuntimeFamily) case None => None)
    case OtherProfile(_) => None
  }

  /** The sections an operation takes authority from, which must not embed an
      impact simulation, and what is reported if one does. */
  function ImpactGuard(p: Profile, op: Operation): (guard: Option<(seq<string>, seq<Token>)>)
    ensures guard.Some? ==> op != RetransmitEvent && Truthful(guard.value.1, {}) && ActionAccepted !in guard.value.1
    ensures guard.Some? ==> Reportable(guard.value.1)
  {
    var suppressed := [ImpactSimulationBindingRejected, ImpactSimulationAuthorityRejected, ApplicationDryRunSuppressed,
                       ImpactSimulationAgentProjectionSuppressed];
    match (p, op)
    case (GrantIssuer, IssueMcpGrant) =>
      Some((["grant"], [GrantRejected, McpBindingRejected, AspAuthorityRetained, CredentialWithheld]))
    case (GrantIssuer, IssueGrant) => Some((["grant"], [GrantRejected] + suppressed))
    case (GrantIssuer, RevokeGrant) => Some((["grant"], [GrantRejected] + suppressed))
    case (RuntimeMediator, MediateGrant) => Some((["grant"], [GrantRejected] + suppressed))
    case (RuntimeMediator, MediateAction) => Some((["grant", "execution"], [ActionRejected, MediationStopped] + suppressed))
    case (RuntimeMediator, MediateMcpAction) => Some((["grant", "execution"], [ActionRejected, MediationStopped] + suppressed))
    case (ActionExecutor, InvokeAction) => Some((["grant", "execution"], [ActionRejected] + suppressed))
    case (ActionExecutor, ExecuteMcpAction) => Some((["grant", "execution"], [ActionRejected] + suppressed))
    case (ActionExecutor, ReplayAction) => Some((["grant", "execution"], [ActionRejected] + suppressed))
    case (AgentAdapter, TranslateAhpAction) => Some((["execution"], [AdapterRequestRejected] + suppressed))
    case (AgentAdapter, TranslateAction) => Some((["execution"], [AdapterRequestRejected] + suppressed))
    case _ => None
  }

  /** Some(true) if a section embeds an impact simulation, None if an earlier one
      is missing. */
  function Embeds(d: Document, sections: seq<string>): Option<bool> {
    if sections == [] then Some(false)
    else match Section(d, sections[0])
         case None => None
         case Some(s) => if "impact_simulation" in s then Some(true) else Embeds(d, sections[1..])
  }

  datatype Call = Call(profile: Profile, role: Option<ProducerRole>, operation: Operation, document: Document)

  /** The document embeds an impact simulation where the operation takes
      authority from. */
  predicate Embedding(call: Call) {
    var guard := ImpactGuard(call.profile, call.operation);
    guard.Some? && Embeds(call.document, guard.value.0) == Some(true)
  }

  /** A call that its role rejects has changed the state. */
  predicate RoleCounts(k: Checks, call: Call, st: State) {
    match call.profile
    case GrantIssuer => GrantCounts(k, call.operation, call.document, st)
    case ActionExecutor => ActionCounts(k, call.operation, call.document, st)
    case RuntimeMediator => MediateCounts(k, call.operation, call.document, st)
    case _ => false
  }

  function RolePlan(k: Checks, call: Call, st: State): (plan: Plan)
    ensures Fine(plan)
    ensures call.profile == ActionExecutor ==> ExecutorPlan(plan, call.operation)
  {
    match call.profile
    case SurfacePublisher => Surface(k, call.operation, call.document)
    case GrantIssuer => Grant(k, call.operation, call.document, st)
    case ActionExecutor => Action(k, call.operation, call.document, st)
    case ReceiptProducer => Receipt(call.operation, call.document, call.role)
    case RuntimeMediator => Mediate(k, call.operation, call.document, st)
    case AgentAdapter => Adapt(k, call.operation, call.document)
    case OtherProfile(_) => Raise
  }

  /** A role's plan, unless the document claims authority for a simulation. */
  function Guarded(guard: Option<(seq<string>, seq<Token>)>, d: Document, p: Plan): (plan: Plan)
    ensures plan == p || plan == Raise || (guard.Some? && plan == Reply({}, Quiet(), Rejected, guard.value.1))
    ensures guard.Some? && Embeds(d, guard.value.0) == Some(true) ==> plan == Reply({}, Quiet(), Rejected, guard.value.1)
    ensures !(guard.Some? && Embeds(d, guard.value.0) == Some(true)) ==> plan == p || plan == Raise
  {
    match guard
    case None => p
    case Some((sections, tokens)) =>
      match Embeds(d, sections)
      case None => Raise
      case Some(true) => Reply({}, Quiet(), Rejected, tokens)
      case Some(false) => p
  }

  function PlanFor(k: Checks, call: Call, st: State): (plan: Plan)
    ensures Fine(plan)
    ensures call.profile == ActionExecutor ==> ExecutorPlan(plan, call.operation)
  {
    if FamilyFor(call.profile, call.role).None? then Raise
    else Guarded(ImpactGuard(call.profile, call.operation), call.document, RolePlan(k, call, st))
  }

  lemma GrantRejects(k: Checks, op: Operation, d: Document, st: State)
    ensures RejectsCounting(Grant(k, op, d, st), GrantCounts(k, op, d, st))
  {}

  lemma ReplayRejects(k: Checks, d: Document, st: State)
    ensures RejectsCounting(Action(k, ReplayAction, d, st), ActionCounts(k, ReplayAction, d, st))
  {}

  lemma InvokeRejects(k: Checks, d: Document, st: State)
    ensures RejectsCounting(Action(k, InvokeAction, d, st), ActionCounts(k, InvokeAction, d, st))
  {}

  lemma ActionRejects(k: Checks, op: Operation, d: Document, st: State)
    ensures RejectsCounting(Action(k, op, d, st), ActionCounts(k, op, d, st))
  {
    match op
    case ReplayAction => ReplayRejects(k, d, st);
    case InvokeAction => InvokeRejects(k, d, st);
    case _ =>
  }

  lemma MediateRejects(k: Checks, op: Operation, d: Document, st: State)
    ensures RejectsCounting(Mediate(k, op, d, st), MediateCounts(k, op, d, st))
  {}

  lemma RoleRejects(k: Checks, call: Call, st: State)
    ensures RejectsCounting(RolePlan(k, call, st), RoleCounts(k, call, st))
  {
    match call.profile
    case GrantIssuer => GrantRejects(k, call.operation, call.document, st);
    case ActionExecutor => ActionRejects(k, call.operation, call.document, st);
    case RuntimeMediator => MediateRejects(k, call.operation, call.document, st);
    case _ =>
  }

  lemma GuardedRejects(guard: Option<(seq<string>, seq<Token>)>, d: Document, p: Plan, condition: bool)
    requires RejectsCounting(p, condition)
    ensures RejectsCounting(Guarded(guard, d, p), !(guard.Some? && Embeds(d, guard.value.0) == Some(true)) && condition)
  {}

  /** A rejected call has changed something exactly when its role counted before
      it rejected: a purpose look-up, a policy denial or a queued event. */
  lemma CallRejects(k: Checks, call: Call, st: State)
    ensures RejectsCounting(PlanFor(k, call, st), !Embedding(call) && RoleCounts(k, call, st))
  {
    RoleRejects(k, call, st);
    GuardedRejects(ImpactGuard(call.profile, call.operation), call.document, RolePlan(k, call, st), RoleCounts(k, call, st));
  }

  /** One call on a state; None if it raises. */
  function Step(k: Checks, call: Call, st: State): Option<Outcome> { Perform(PlanFor(k, call, st), st) }

  function Evaluation(k: Checks, call: Call, items: seq<Item>): Option<Outcome> {
    match InitialState(items) case None => None case Some(st) => Step(k, call, st)
  }

  lemma FineIsDisjoint(p: Plan)
    requires Fine(p) && p.Plan?
    ensures Total(p).bumped !! p.changes.settled.Keys
  {
    assert Lookups() !! Settings();
  }

  method Evaluate(k: Checks, call: Call, items: seq<Item>) returns (r: Option<Outcome>)
    ensures r == Evaluation(k, call, items)
  {
    var st := ReadInitialState(items);
    if st.None? {
      return None;
    }
    var plan := PlanFor(k, call, st.value);
    if plan.Plan? {
      FineIsDisjoint(plan);
    }
    var transition := new Transition(st.value);
    r := transition.Run(plan);
  }
}
