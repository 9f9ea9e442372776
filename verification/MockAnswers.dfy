/** What calls are answered: the decision and error of invocations, replays,
    requests for Grants, receipts and bound capacity responses. */
module MockAnswers {
  import opened Wrappers
  import opened JsonDiff
  import opened MockNames
  import opened MockState
  import opened MockRoles
  import opened MockWarrants

  // ----- what an invocation is answered -----

  /** The decision and error of a plan; None if it raises. */
  function AnswerOf(p: Plan): Option<(Decision, Option<AspError>)> {
    if p.Plan? then Some((p.decision, p.error)) else None
  }

  function Rejecting(error: AspError): Option<(Decision, Option<AspError>)> { Some((Rejected, Some(error))) }

  /** What is wrong with proof or Grant, in this order. */
  function OrderFault(grant: Document, execution: Document): Option<AspError> {
    if !Is(execution, "normalization", "fixed_point") then Some(InputNotNormalized)
    else if !Agree(execution, "sender_credential_audience", "bound_credential_audience")
            || !Agree(execution, "proof_session_binding", "bound_session_binding") then Some(GrantProofInvalid)
    else if !Agree(grant, "claimed_issuer", "issuer") then Some(IntegrityMismatch)
    else if !Is(grant, "status", "active") || Is(grant, "revocation_state", "revoked") then Some(GrantIsRevoked)
    else if !Agree(execution, "runtime_identity", "bound_runtime_identity") || !Is(execution, "attestation", "current")
    then Some(RuntimeUntrusted)
    else None
  }

  /** What is wrong with the purpose: no projection, another session, records that
      are not the Grant's or cannot be counted, the gravest condition, policy, or a
      goal that is used as authority. */
  function PurposeFault(purpose: Option<Purpose>, st: State, requireSession: bool): Option<AspError> {
    if purpose.None? then Some(IntegrityMismatch)
    else if requireSession && purpose.value.session != purpose.value.grant then Some(SessionInvalid)
    else if !LooksUpRecords(purpose, st, requireSession) then Some(IntegrityMismatch)
    else if SomeIs(purpose.value, Terminal) then Some(GrantIsRevoked)
    else if SomeIs(purpose.value, Unavailable) then Some(PurposeBindingStatusUnavailable)
    else if !AllActive(purpose.value) then Some(PurposeBindingDenied)
    else if !Countable(st, PurposeBindingPolicyEvaluationCount) then Some(IntegrityMismatch)
    else if !AllAllow(purpose.value) || !purpose.value.informational then Some(PurposeBindingDenied)
    else None
  }

  function InvocationAnswer(k: Checks, d: Document, st: State, grant: Document, execution: Document):
    Option<(Decision, Option<AspError>)>
  {
    if OrderFault(grant, execution).Some? then Rejecting(OrderFault(grant, execution).value)
    else if "purpose_binding" in d && PurposeFault(k.purpose(d), st, true).Some? then Rejecting(PurposeFault(k.purpose(d), st, true).value)
    else CheckedAnswer(d, execution)
  }

  function CheckedAnswer(d: Document, execution: Document): Option<(Decision, Option<AspError>)> {
    if !Is(execution, "policy", "allow") then Rejecting(RiskDenied)
    else if Field(d, "operational") == JNull then Some((Accepted, None))
    else
      match Section(d, "operational")
      case None => None
      case Some(operational) =>
        if !Is(operational, "limiter_state", "available") then Rejecting(CapacityStateUnavailable)
        else if !Is(operational, "action_capacity", "available") then Rejecting(RateLimited)
        else Some((Accepted, None))
  }

  lemma OrderAnswers(grant: Document, execution: Document)
    ensures OrderFault(grant, execution).Some? <==> ProofFault(execution).Some? || GrantFault(grant, execution).Some?
    ensures ProofFault(execution).Some? ==> AnswerOf(ProofFault(execution).value) == Rejecting(OrderFault(grant, execution).value)
    ensures ProofFault(execution).None? && GrantFault(grant, execution).Some? ==>
              AnswerOf(GrantFault(grant, execution).value) == Rejecting(OrderFault(grant, execution).value)
  {}

  lemma CheckedAnswers(d: Document, execution: Document, l: Looked, bound: bool)
    ensures AnswerOf(InvokeChecked(d, execution, l, bound)) == CheckedAnswer(d, execution)
  {}

  /** The error for a standing that does not admit. */
  function StandingError(standing: Standing): AspError {
    match standing
    case Mismatched => SessionInvalid
    case Inactive(Terminal) => GrantIsRevoked
    case Inactive(Unavailable) => PurposeBindingStatusUnavailable
    case Inactive(_) => PurposeBindingDenied
    case Denied => PurposeBindingDenied
    case _ => IntegrityMismatch
  }

  lemma RefusedSays(l: Looked, standing: Standing)
    requires standing != Admitted
    ensures AnswerOf(InvokeRefused(l, standing)) == Rejecting(StandingError(standing))
  {}

  lemma StandingFault(p: Purpose, st: State, requireSession: bool)
    ensures var standing := PreAdmission(p, st, requireSession).1;
            PurposeFault(Some(p), st, requireSession)
            == if standing != Admitted then Some(StandingError(standing))
            else if !p.informational then Some(PurposeBindingDenied) else None
  {
    CurrentPurposeMeans(p);
  }

  lemma PurposeAnswers(k: Checks, d: Document, st: State, execution: Document)
    ensures AnswerOf(InvokeForPurpose(k, d, st, execution))
         == if "purpose_binding" in d && PurposeFault(k.purpose(d), st, true).Some? then Rejecting(PurposeFault(k.purpose(d), st, true).value)
            else CheckedAnswer(d, execution)
  {
    CheckedAnswers(d, execution, {}, false);
    if "purpose_binding" in d && k.purpose(d).Some? {
      var p := k.purpose(d).value;
      var (l, standing) := PreAdmission(p, st, true);
      StandingFault(p, st, true);
      if standing != Admitted {
        RefusedSays(l, standing);
      } else {
        CheckedAnswers(d, execution, l, true);
      }
    }
  }

  lemma InvokeAnswers(k: Checks, d: Document, st: State, grant: Document, execution: Document)
    ensures AnswerOf(Invoke(k, d, st, grant, execution)) == InvocationAnswer(k, d, st, grant, execution)
  {
    OrderAnswers(grant, execution);
    PurposeAnswers(k, d, st, execution);
  }

  lemma InvocationPlan(k: Checks, call: Call, st: State, grant: Document, execution: Document)
    requires call.profile == ActionExecutor && call.operation == InvokeAction
    requires Section(call.document, "grant") == Some(grant) && Section(call.document, "execution") == Some(execution)
    ensures PlanFor(k, call, st)
         == if CarriesImpact(call) then Reply({}, Quiet(), Rejected, ImpactGuard(ActionExecutor, InvokeAction).value.1)
            else Invoke(k, call.document, st, grant, execution)
  {
    EmbedsTwo(call.document);
  }

  /** An invocation is accepted exactly if nothing is wrong, and otherwise rejected
      for the first thing that is; one that carries an impact simulation is
      rejected without an error. */
  lemma InvocationIsAnswered(k: Checks, call: Call, st: State, grant: Document, execution: Document)
    requires call.profile == ActionExecutor && call.operation == InvokeAction && Step(k, call, st).Some?
    requires Section(call.document, "grant") == Some(grant) && Section(call.document, "execution") == Some(execution)
    ensures var o := Step(k, call, st).value;
            Some((o.decision, o.error))
            == if CarriesImpact(call) then Some((Rejected, None)) else InvocationAnswer(k, call.document, st, grant, execution)
  {
    InvocationPlan(k, call, st, grant, execution);
    InvokeAnswers(k, call.document, st, grant, execution);
  }

  // ----- what a replay is answered -----

  /** Inputs that are not the recorded ones, and what is said of them. */
  function RecordedAnswer(execution: Document): Option<(Decision, Option<AspError>)> {
    if !Agree(execution, "input_schema_hash", "recorded_input_schema_hash") then Rejecting(IdempotencyConflict)
    else if !Is(execution, "normalization", "fixed_point") then Rejecting(InputNotNormalized)
    else if Agree(execution, "input_hash", "recorded_input_hash") && Agree(execution, "execution_hash", "recorded_execution_hash")
            && Agree(execution, "approval_hash", "recorded_approval_hash") then Some((Replayed, None))
    else Rejecting(IdempotencyConflict)
  }

  function ReplayAnswer(k: Checks, d: Document, st: State, execution: Document): Option<(Decision, Option<AspError>)> {
    if "purpose_binding" !in d then RecordedAnswer(execution)
    else if k.purpose(d).None? then Rejecting(IntegrityMismatch)
    else
      match PurposeFault(Some(k.purpose(d).value.(informational := true)), st, true)
      case None => RecordedAnswer(execution)
      case Some(error) => Rejecting(error)
  }

  lemma ReplayStandingSays(d: Document, execution: Document, l: Looked, standing: Standing)
    ensures AnswerOf(ReplayStanding(d, execution, l, standing))
         == if standing == Admitted then RecordedAnswer(execution) else Rejecting(StandingError(standing))
  {}

  lemma ReplayAnswers(k: Checks, d: Document, st: State, execution: Document)
    ensures AnswerOf(Replay(k, d, st, execution)) == ReplayAnswer(k, d, st, execution)
  {
    if "purpose_binding" in d && k.purpose(d).Some? {
      var p := k.purpose(d).value;
      var (l, standing) := PreAdmission(p, st, true);
      StandingFault(p.(informational := true), st, true);
      SameAdmission(p, st, true);
      ReplayStandingSays(d, execution, l, standing);
    }
  }

  lemma SameAdmission(p: Purpose, st: State, requireSession: bool)
    ensures PreAdmission(p.(informational := true), st, requireSession) == PreAdmission(p, st, requireSession)
  {}

  /** A replay gives the original result exactly if what is replayed is what was
      recorded and the purpose still admits, and else is rejected for the first
      thing that is not so. */
  lemma ReplayIsAnswered(k: Checks, call: Call, st: State, execution: Document)
    requires call.profile == ActionExecutor && call.operation == ReplayAction && Step(k, call, st).Some?
    requires Section(call.document, "grant").Some? && Section(call.document, "execution") == Some(execution)
    ensures var o := Step(k, call, st).value;
            Some((o.decision, o.error))
            == if CarriesImpact(call) then Some((Rejected, None)) else ReplayAnswer(k, call.document, st, execution)
  {
    ReplayPlan(k, call, st, execution);
    ReplayAnswers(k, call.document, st, execution);
  }

  lemma ReplayPlan(k: Checks, call: Call, st: State, execution: Document)
    requires call.profile == ActionExecutor && call.operation == ReplayAction
    requires Section(call.document, "grant").Some? && Section(call.document, "execution") == Some(execution)
    ensures PlanFor(k, call, st)
         == if CarriesImpact(call) then Reply({}, Quiet(), Rejected, ImpactGuard(ActionExecutor, ReplayAction).value.1)
            else Replay(k, call.document, st, execution)
  {
    EmbedsTwo(call.document);
  }

  // ----- receipts -----

  /** A receipt is produced exactly if it claims no authority, says what its role
      observed, and is whole and observed; it is verified exactly if it is whole. */
  lemma ReceiptIsAnswered(op: Operation, d: Document, role: ProducerRole, receipt: Document)
    requires Section(d, "receipt") == Some(receipt) && (op == ProduceReceipt || op == VerifyReceipt)
    ensures var whole := Is(receipt, "integrity", "valid");
            var mine := Is(receipt, "claimed_observation",
                           match role case Application => "application_effect" case Runtime => "runtime_observation");
            var free := Is(receipt, "authority_use", "prohibited");
            var good := if op == VerifyReceipt then whole else free && mine && whole && Is(receipt, "origin", "observed");
            var p := Receipt(op, d, Some(role));
            && AnswerOf(p) == Some(if good then (Accepted, None)
                                   else if op == ProduceReceipt && !free then (Rejected, None)
                                   else (Rejected, Some(IntegrityMismatch)))
            && p.changes.bumped == (if !good || op == VerifyReceipt then {}
                                    else {match role case Application => ReceiptApplicationCount case Runtime => ReceiptRuntimeCount})
  {}

  // ----- what a request for a Grant is answered -----

  /** The Grant itself: raised where its lists are not lists of scalars. */
  function PassportAnswer(grant: Document): Option<(Decision, Option<AspError>)> {
    var issued, requested := ListAt(grant, "issued_actions", false), ListAt(grant, "requested_actions", false);
    if issued.None? || requested.None? || !Scalars(issued.value) || !Scalars(requested.value) then None
    else if WithinPassport(grant) then Some((Accepted, None))
    else Some((Rejected, None))
  }

  function IssuanceAnswer(k: Checks, d: Document, st: State, surface: Document, grant: Document):
    Option<(Decision, Option<AspError>)>
  {
    if !Is(surface, "status", "current") then Some((Rejected, None))
    else if "purpose_binding" !in d then PassportAnswer(grant)
    else PurposeAnswer(k.purpose(d), st, grant)
  }

  lemma IssuedWithinNone(grant: Document)
    ensures IssuedWithin(grant, false).None? <==>
            var issued, requested := ListAt(grant, "issued_actions", false), ListAt(grant, "requested_actions", false);
            issued.None? || requested.None? || !Scalars(issued.value) || !Scalars(requested.value)
  {
    var issued, requested := ListAt(grant, "issued_actions", false), ListAt(grant, "requested_actions", false);
    if issued.Some? && requested.Some? {
      ScalarsAreHashable(issued.value);
      ScalarsAreHashable(requested.value);
    }
  }

  lemma IssueCheckedAnswers(grant: Document, l: Looked, bound: bool)
    ensures AnswerOf(IssueChecked(grant, l, bound)) == PassportAnswer(grant)
  {
    IssuedWithinNone(grant);
    IssuedWithinMeans(grant, false);
  }

  lemma IssueStandingSays(grant: Document, l: Looked, standing: Standing)
    requires standing != Mismatched
    ensures AnswerOf(IssueStanding(grant, l, standing))
         == if standing == Admitted then PassportAnswer(grant) else Rejecting(StandingError(standing))
  {
    IssueCheckedAnswers(grant, l, true);
  }

  function PurposeAnswer(purpose: Option<Purpose>, st: State, grant: Document): Option<(Decision, Option<AspError>)> {
    if purpose.None? || !Consented(purpose.value) || !Attenuates(purpose.value) then Rejecting(IntegrityMismatch)
    else
      match PurposeFault(Some(purpose.value.(informational := true)), st, false)
      case None => PassportAnswer(grant)
      case Some(error) => Rejecting(error)
  }

  lemma IssueForPurposeAnswers(purpose: Option<Purpose>, st: State, grant: Document)
    ensures AnswerOf(IssueForPurpose(purpose, st, grant)) == PurposeAnswer(purpose, st, grant)
  {
    if purpose.Some? {
      var p := purpose.value;
      var (l, standing) := PreAdmission(p, st, false);
      ClosedIssuanceMeans(p);
      StandingFault(p.(informational := true), st, false);
      SameAdmission(p, st, false);
      IssueStandingSays(grant, l, standing);
    }
  }

  lemma IssueAnswers(k: Checks, d: Document, st: State, surface: Document, grant: Document)
    ensures AnswerOf(IssueGrantPlan(k, d, st, surface, grant)) == IssuanceAnswer(k, d, st, surface, grant)
  {
    IssueCheckedAnswers(grant, {}, false);
    IssueForPurposeAnswers(k.purpose(d), st, grant);
  }

  lemma IssuancePlan(k: Checks, call: Call, st: State, surface: Document, grant: Document)
    requires call.profile == GrantIssuer && call.operation == IssueGrant
    requires Section(call.document, "surface") == Some(surface) && Section(call.document, "grant") == Some(grant)
    ensures PlanFor(k, call, st)
         == if CarriesImpact(call) then Reply({}, Quiet(), Rejected, ImpactGuard(GrantIssuer, IssueGrant).value.1)
            else IssueGrantPlan(k, call.document, st, surface, grant)
  {
    EmbedsOne(call.document, "grant");
  }

  /** A request for a Grant is accepted exactly if everything is shown, and else
      rejected for the first thing that is not. */
  lemma IssuanceIsAnswered(k: Checks, call: Call, st: State, surface: Document, grant: Document)
    requires call.profile == GrantIssuer && call.operation == IssueGrant && Step(k, call, st).Some?
    requires Section(call.document, "surface") == Some(surface) && Section(call.document, "grant") == Some(grant)
    ensures var o := Step(k, call, st).value;
            Some((o.decision, o.error))
            == if CarriesImpact(call) then Some((Rejected, None)) else IssuanceAnswer(k, call.document, st, surface, grant)
  {
    IssuancePlan(k, call, st, surface, grant);
    IssueAnswers(k, call.document, st, surface, grant);
  }

  // ----- capacity responses -----

  /** An HTTP capacity response is bound exactly if its hint goes with it. */
  lemma BindAnswers(k: Checks, d: Document)
    requires CapacityParts(d).Some?
    ensures var c := CapacityParts(d).value;
            var hint := if "http_retry_after_hint" in c.operational then c.operational["http_retry_after_hint"]
                        else JStr("absent");
            AnswerOf(BindHttpCapacity(k, d))
            == if hint == JStr("absent") || Accompanies(k, c.response, hint) then Rejecting(c.code) else None
  {
    var c := CapacityParts(d).value;
    PartsMean(d);
    RetryAfterMeans(k, c, if "http_retry_after_hint" in c.operational then c.operational["http_retry_after_hint"]
                    else JStr("absent"));
  }
}
