/** The vocabulary of the mock participants: state names, observation tokens and
    result codes.  Names the mock has no use for stay plain strings. */
module MockNames {

  datatype StateName =
    | ActionDispatchCount | ActionEffectCount | IdempotencyRecordCount | BudgetApplicationCharge
    | ReceiptApplicationCount | ReceiptRuntimeCount | ApplicationProposalRevision
    | ApplicationProposalUpdateCount | ApplicationWorkloadCount | OperationalEventTransmissionCount
    | OperationalEventQueuedCount | OperationalEventDeliveryRecordCount | OperationalEventDeliveryIdentityCount
    | OperationalEventFirstDeliveryCount | OperationalEventInFlightCount | EventCursorAdvanceCount
    | OperationalActionWindowCount | OperationalActionSecondaryWindowCount
    | OperationalActionSlotAcquisitionCount | PurposeBindingResolutionCount
    | PurposeBindingPolicyEvaluationCount | PurposeBindingSessionFenceCount | GrantLifecycle | GrantIssuedCount
    | GrantChildActiveCount | CredentialIssuedCount | CredentialActiveCount | ProofSessionActiveCount
    | ExecutionTokenActiveCount | ReservationActiveCount | ControlEventEmittedCount | RevocationEffectiveCount
    | RevocationConfirmedCount | RevocationFenceCount | RevocationConfirmedAfterEffective
    | ManifestAcceptedCount | SurfaceVersionBindingCount | RuntimeStoredGrantWidth
    | RuntimeImpactSimulationPresentationCount | RuntimeRiskExplanationPresentationCount
    | RuntimeElicitationRevision | RuntimeElicitationResponseCount | RuntimeStepUpVerifiedCount
    | RuntimeAhpRepresentationRevision | RuntimeAhpPresentationCount | RuntimeLocalWindowCount
    | RuntimeLocalInFlightCount | RuntimeCapacityRecoveryPending | RuntimeCapacityDecisionPending
    | RuntimeRetryCount | RuntimeRetryWaitPending | RuntimeRetryDelayFloorSeconds | AdapterForwardedCount
    | Unused(name: string)

  function SpellState(n: StateName): string {
    match n
    case ActionDispatchCount => "action.dispatch_count"
    case ActionEffectCount => "action.effect_count"
    case IdempotencyRecordCount => "idempotency.record_count"
    case BudgetApplicationCharge => "budget.application_charge"
    case ReceiptApplicationCount => "receipt.application_count"
    case ReceiptRuntimeCount => "receipt.runtime_count"
    case ApplicationProposalRevision => "application.proposal_revision"
    case ApplicationProposalUpdateCount => "application.proposal_update_count"
    case ApplicationWorkloadCount => "application.workload_count"
    case OperationalEventTransmissionCount => "operational.event.transmission_count"
    case OperationalEventQueuedCount => "operational.event.queued_count"
    case OperationalEventDeliveryRecordCount => "operational.event.delivery_record_count"
    case OperationalEventDeliveryIdentityCount => "operational.event.delivery_identity_count"
    case OperationalEventFirstDeliveryCount => "operational.event.first_delivery_count"
    case OperationalEventInFlightCount => "operational.event.in_flight_count"
    case EventCursorAdvanceCount => "event.cursor_advance_count"
    case OperationalActionWindowCount => "operational.action.window_count"
    case OperationalActionSecondaryWindowCount => "operational.action.secondary_window_count"
    case OperationalActionSlotAcquisitionCount => "operational.action.slot_acquisition_count"
    case PurposeBindingResolutionCount => "purpose_binding.resolution_count"
    case PurposeBindingPolicyEvaluationCount => "purpose_binding.policy_evaluation_count"
    case PurposeBindingSessionFenceCount => "purpose_binding.session_fence_count"
    case GrantLifecycle => "grant.lifecycle"
    case GrantIssuedCount => "grant.issued_count"
    case GrantChildActiveCount => "grant.child_active_count"
    case CredentialIssuedCount => "credential.issued_count"
    case CredentialActiveCount => "credential.active_count"
    case ProofSessionActiveCount => "proof_session.active_count"
    case ExecutionTokenActiveCount => "execution_token.active_count"
    case ReservationActiveCount => "reservation.active_count"
    case ControlEventEmittedCount => "control_event.emitted_count"
    case RevocationEffectiveCount => "revocation.effective_count"
    case RevocationConfirmedCount => "revocation.confirmed_count"
    case RevocationFenceCount => "revocation.fence_count"
    case RevocationConfirmedAfterEffective => "revocation.confirmed_after_effective"
    case ManifestAcceptedCount => "manifest.accepted_count"
    case SurfaceVersionBindingCount => "surface.version_binding_count"
    case RuntimeStoredGrantWidth => "runtime.stored_grant_width"
    case RuntimeImpactSimulationPresentationCount => "runtime.impact_simulation_presentation_count"
    case RuntimeRiskExplanationPresentationCount => "runtime.risk_explanation_presentation_count"
    case RuntimeElicitationRevision => "runtime.elicitation_revision"
    case RuntimeElicitationResponseCount => "runtime.elicitation_response_count"
    case RuntimeStepUpVerifiedCount => "runtime.step_up_verified_count"
    case RuntimeAhpRepresentationRevision => "runtime.ahp_representation_revision"
    case RuntimeAhpPresentationCount => "runtime.ahp_presentation_count"
    case RuntimeLocalWindowCount => "runtime.local_window_count"
    case RuntimeLocalInFlightCount => "runtime.local_in_flight_count"
    case RuntimeCapacityRecoveryPending => "runtime.capacity_recovery_pending"
    case RuntimeCapacityDecisionPending => "runtime.capacity_decision_pending"
    case RuntimeRetryCount => "runtime.retry_count"
    case RuntimeRetryWaitPending => "runtime.retry_wait_pending"
    case RuntimeRetryDelayFloorSeconds => "runtime.retry_delay_floor_seconds"
    case AdapterForwardedCount => "adapter.forwarded_count"
    case Unused(name) => name
  }

  const KnownStates: seq<StateName> := [
    ActionDispatchCount, ActionEffectCount, IdempotencyRecordCount, BudgetApplicationCharge,
    ReceiptApplicationCount, ReceiptRuntimeCount, ApplicationProposalRevision, ApplicationProposalUpdateCount,
    ApplicationWorkloadCount, OperationalEventTransmissionCount, OperationalEventQueuedCount,
    OperationalEventDeliveryRecordCount, OperationalEventDeliveryIdentityCount,
    OperationalEventFirstDeliveryCount, OperationalEventInFlightCount, EventCursorAdvanceCount,
    OperationalActionWindowCount, OperationalActionSecondaryWindowCount, OperationalActionSlotAcquisitionCount,
    PurposeBindingResolutionCount, PurposeBindingPolicyEvaluationCount, PurposeBindingSessionFenceCount,
    GrantLifecycle, GrantIssuedCount, GrantChildActiveCount, CredentialIssuedCount, CredentialActiveCount,
    ProofSessionActiveCount, ExecutionTokenActiveCount, ReservationActiveCount, ControlEventEmittedCount,
    RevocationEffectiveCount, RevocationConfirmedCount, RevocationFenceCount, RevocationConfirmedAfterEffective,
    ManifestAcceptedCount, SurfaceVersionBindingCount, RuntimeStoredGrantWidth,
    RuntimeImpactSimulationPresentationCount, RuntimeRiskExplanationPresentationCount,
    RuntimeElicitationRevision, RuntimeElicitationResponseCount, RuntimeStepUpVerifiedCount,
    RuntimeAhpRepresentationRevision, RuntimeAhpPresentationCount, RuntimeLocalWindowCount,
    RuntimeLocalInFlightCount, RuntimeCapacityRecoveryPending, RuntimeCapacityDecisionPending,
    RuntimeRetryCount, RuntimeRetryWaitPending, RuntimeRetryDelayFloorSeconds, AdapterForwardedCount
  ]

  /** The first of some names that is spelled this way. */
  function Find(s: string, names: seq<StateName>): (n: StateName)
    ensures SpellState(n) == s
  {
    if names == [] then Unused(s)
    else if SpellState(names[0]) == s then names[0]
    else Find(s, names[1..])
  }

  /** The name a string stands for. */
  function Named(s: string): (n: StateName)
    ensures SpellState(n) == s
  {
    Find(s, KnownStates)
  }

  datatype Token =
    | ActionAccepted | ActionDispatchSuppressed | ActionRejected | AdapterRequestRejected
    | AgentInstructionSuppressed | AhpBindingRejected | AhpBindingValidated | AhpControlTranslated
    | AhpUiStatePresented | AhpUiUpdateSuppressed | ApplicationDryRunSuppressed | ApplicationReceiptEmitted
    | ApprovalNotReopened | AspAuthorityRetained | AspAuthorityUnchanged | AspTupleValidated
    | AuthoritativeCapacityRecoveryConfirmed | AuthoritativeCapacityRecoveryRequired | CancellationAdvisory
    | CanonicalEffectsPresented | CanonicalRiskPresented | CapacityDecisionRequired | CapacityResponseRejected
    | CapacityResponseValidated | ChildGrantRevoked | ConsentPreviewRetained | ControlEventEmitted
    | CredentialInvalidated | CredentialRejected | CredentialWithheld | CurrentStateChecked | DenialRecorded
    | ElicitationAuthorityRetained | ElicitationAuthorityUnchanged | ElicitationBindingRejected
    | ElicitationBindingValidated | ElicitationCandidateRejected | ElicitationCandidateRevalidated
    | ElicitationChoiceValidated | ElicitationPriorAuthorityInvalidated | ElicitationRedlineApplied
    | ElicitationRequestPresented | ElicitationResponseAccepted | ElicitationResponseSuppressed
    | EventDeliveryQueued | EventDeliveryRetransmitted | EventFirstDeliveryAdmitted | EventIdentityReused
    | EventTransmitted | ExecutionTokenInvalidated | GrantIssued | GrantLocationBound | GrantRejected
    | GrantRevoked | HttpCapacityBindingRejected | HttpCapacityBindingValidated | HttpCapacityResponseBound
    | HttpNoStoreApplied | HttpNoStoreValidated | HttpRetryAfterBound | HttpRetryAfterValidated
    | HttpStatusMapped | HumanSecretWithheld | ImpactSimulationAgentProjectionSuppressed
    | ImpactSimulationAuthorityRejected | ImpactSimulationAuthorityUnchanged | ImpactSimulationBindingRejected
    | ImpactSimulationPresented | ImpactSimulationSuppressed | ImpactSimulationValidated | InputSchemaChecked
    | LocalBackoffSelected | LocalDenialRecorded | ManifestPublished | ManifestRejected | McpBindingRejected
    | McpBindingValidated | McpDiscoverySuppressed | McpResultSuppressed | McpStructuredResultEmitted
    | McpStructuredResultValidated | McpSurfacePublished | McpToolsPublished | MediationStopped
    | NormalizationChecked | OperationalAdmissionCommitted | OperationalCapacityRejected
    | OperationalIdentityReused | OperationalLimitsChecked | OperationalLimitsValidated
    | OperationalPlanningReserved | OperationalStateRetained | OriginalResultReplayed
    | OriginalRevocationReplayed | OutcomeReconciliationRequired | PerAttemptAuthenticationApplied
    | ProofRejected | ProofSessionInvalidated | PurposeBindingAdvertised | PurposeBindingAttenuationChecked
    | PurposeBindingGoalAuthorityRejected | PurposeBindingPolicyChecked | PurposeBindingRejected
    | PurposeBindingSessionBound | PurposeBindingStateChecked | PurposeBindingValidated | ReceiptRejected
    | ReceiptVerified | ReservationInvalidated | RetryDeferred | RetryDelayFloorSatisfied | RetryScheduled
    | RetrySuppressed | RevocationConfirmed | RevocationFenceEstablished | RiskExplanationAuthorityUnchanged
    | RiskExplanationBindingRejected | RiskExplanationRejected | RiskExplanationRenderedLiteral
    | RiskExplanationSelected | RiskExplanationSuppressed | RiskExplanationValidated | RuntimeReceiptEmitted
    | SameReceiptReplayed | SemanticGrantRevocationApplied | SemanticIdentityReused | SessionFenced
    | StepUpResultRejected | StepUpResultVerified | TupleChecked | TypedRequestForwarded

  datatype Operation =
    | PublishMcpSurface | PublishManifest | IssueMcpGrant | IssueGrant | RevokeGrant | ExecuteMcpAction
    | ApplyHumanElicitationCandidate | BindHttpCapacityResponse | DeliverEvent | RetransmitEvent | ReplayAction
    | InvokeAction | VerifyReceipt | ProduceReceipt | MediateMcpAction | SimulateImpact | RenderRiskExplanation
    | MediateHumanElicitation | PresentAhpSession | HandleHttpCapacityResponse | HandleCapacityResponse
    | MediateGrant | RetryOutcome | MediateAction | AdaptMcpAction | ProjectHumanElicitationAnswer
    | TranslateAhpAction | TranslateAction
    | OtherOperation(name: string)

  function SpellOperation(op: Operation): string {
    match op
    case PublishMcpSurface => "publish_mcp_surface"
    case PublishManifest => "publish_manifest"
    case IssueMcpGrant => "issue_mcp_grant"
    case IssueGrant => "issue_grant"
    case RevokeGrant => "revoke_grant"
    case ExecuteMcpAction => "execute_mcp_action"
    case ApplyHumanElicitationCandidate => "apply_human_elicitation_candidate"
    case BindHttpCapacityResponse => "bind_http_capacity_response"
    case DeliverEvent => "deliver_event"
    case RetransmitEvent => "retransmit_event"
    case ReplayAction => "replay_action"
    case InvokeAction => "invoke_action"
    case VerifyReceipt => "verify_receipt"
    case ProduceReceipt => "produce_receipt"
    case MediateMcpAction => "mediate_mcp_action"
    case SimulateImpact => "simulate_impact"
    case RenderRiskExplanation => "render_risk_explanation"
    case MediateHumanElicitation => "mediate_human_elicitation"
    case PresentAhpSession => "present_ahp_session"
    case HandleHttpCapacityResponse => "handle_http_capacity_response"
    case HandleCapacityResponse => "handle_capacity_response"
    case MediateGrant => "mediate_grant"
    case RetryOutcome => "retry_outcome"
    case MediateAction => "mediate_action"
    case AdaptMcpAction => "adapt_mcp_action"
    case ProjectHumanElicitationAnswer => "project_human_elicitation_answer"
    case TranslateAhpAction => "translate_ahp_action"
    case TranslateAction => "translate_action"
    case OtherOperation(name) => name
  }

  const KnownOperations: seq<Operation> := [
    PublishMcpSurface, PublishManifest, IssueMcpGrant, IssueGrant, RevokeGrant, ExecuteMcpAction,
    ApplyHumanElicitationCandidate, BindHttpCapacityResponse, DeliverEvent, RetransmitEvent, ReplayAction,
    InvokeAction, VerifyReceipt, ProduceReceipt, MediateMcpAction, SimulateImpact, RenderRiskExplanation,
    MediateHumanElicitation, PresentAhpSession, HandleHttpCapacityResponse, HandleCapacityResponse,
    MediateGrant, RetryOutcome, MediateAction, AdaptMcpAction, ProjectHumanElicitationAnswer,
    TranslateAhpAction, TranslateAction
  ]

  function FindOperation(s: string, operations: seq<Operation>): (op: Operation)
    ensures SpellOperation(op) == s
  {
    if operations == [] then OtherOperation(s)
    else if SpellOperation(operations[0]) == s then operations[0]
    else FindOperation(s, operations[1..])
  }

  function OperationNamed(s: string): (op: Operation)
    ensures SpellOperation(op) == s
  {
    FindOperation(s, KnownOperations)
  }

  /** The six atomic roles; a profile identifier is a URL. */
  datatype Profile =
    | SurfacePublisher | GrantIssuer | ActionExecutor | ReceiptProducer | RuntimeMediator | AgentAdapter
    | OtherProfile(url: string)

  function SpellProfile(p: Profile): string {
    match p
    case SurfacePublisher => "https://github.com/0al-spec/agent-surface/conformance/surface-publisher/v1"
    case GrantIssuer => "https://github.com/0al-spec/agent-surface/conformance/grant-issuer/v1"
    case ActionExecutor => "https://github.com/0al-spec/agent-surface/conformance/action-executor/v1"
    case ReceiptProducer => "https://github.com/0al-spec/agent-surface/conformance/receipt-producer/v1"
    case RuntimeMediator => "https://github.com/0al-spec/agent-surface/conformance/runtime-mediator/v1"
    case AgentAdapter => "https://github.com/0al-spec/agent-surface/conformance/agent-adapter/v1"
    case OtherProfile(url) => url
  }

  const KnownProfiles: seq<Profile> := [
    SurfacePublisher, GrantIssuer, ActionExecutor, ReceiptProducer, RuntimeMediator, AgentAdapter
  ]

  function FindProfile(s: string, profiles: seq<Profile>): (p: Profile)
    ensures SpellProfile(p) == s
  {
    if profiles == [] then OtherProfile(s)
    else if SpellProfile(profiles[0]) == s then profiles[0]
    else FindProfile(s, profiles[1..])
  }

  function ProfileNamed(s: string): (p: Profile)
    ensures SpellProfile(p) == s
  {
    FindProfile(s, KnownProfiles)
  }

  datatype Decision = Accepted | Rejected | Stopped | Replayed | Deferred

  datatype AspError =
    | SurfaceIncompatible | IntegrityMismatch | PurposeBindingStatusUnavailable | PurposeBindingDenied
    | GrantIsRevoked | GrantProofInvalid | SessionInvalid | ElicitationInvalid | IdempotencyConflict
    | InputNotNormalized | RuntimeUntrusted | RiskDenied | TrainingUseDenied | OutcomeUnknown
    | RateLimited | CapacityStateUnavailable | ServiceUnavailable

  datatype Reason = BindingInvalid | LocalPolicyDenied | InputUnknown

  function SpellDecision(d: Decision): string {
    match d
    case Accepted => "accepted"
    case Rejected => "rejected"
    case Stopped => "stopped"
    case Replayed => "replayed"
    case Deferred => "deferred"
  }

  function SpellError(e: AspError): string {
    match e
    case SurfaceIncompatible => "surface_incompatible"
    case IntegrityMismatch => "integrity_mismatch"
    case PurposeBindingStatusUnavailable => "purpose_binding_status_unavailable"
    case PurposeBindingDenied => "purpose_binding_denied"
    case GrantIsRevoked => "grant_revoked"
    case GrantProofInvalid => "grant_proof_invalid"
    case SessionInvalid => "session_invalid"
    case ElicitationInvalid => "elicitation_invalid"
    case IdempotencyConflict => "idempotency_conflict"
    case InputNotNormalized => "input_not_normalized"
    case RuntimeUntrusted => "runtime_untrusted"
    case RiskDenied => "risk_denied"
    case TrainingUseDenied => "training_use_denied"
    case OutcomeUnknown => "outcome_unknown"
    case RateLimited => "rate_limited"
    case CapacityStateUnavailable => "capacity_state_unavailable"
    case ServiceUnavailable => "service_unavailable"
  }

  function SpellReason(r: Reason): string {
    match r
    case BindingInvalid => "binding_invalid"
    case LocalPolicyDenied => "local_policy_denied"
    case InputUnknown => "input_unknown"
  }

  /** How tokens are written: with different, non-empty strings, the snake-case
      form of their names here. */
  type Spelling = Token -> string

  ghost predicate Legible(spell: Spelling) {
    && (forall t :: spell(t) != "")
    && forall t, u :: spell(t) == spell(u) ==> t == u
  }
}
