/** What single calls and whole runs of the mock keep: counters that move in
    lockstep, tokens that match the counters, and calls that change nothing. */
module MockLedger {
  import opened Wrappers
  import opened Collections
  import opened JsonDiff
  import opened MockNames
  import opened MockState
  import opened MockRoles

  // ----- one planned call -----

  predicate SameAt(st: State, st': State, n: StateName) { (n in st' <==> n in st) && (n in st ==> st'[n] == st[n]) }

  lemma PlanSpares(p: Plan, st: State, n: StateName)
    requires Fine(p) && Perform(p, st).Some? && p.decision == Rejected && Protected(n)
    ensures SameAt(st, Perform(p, st).value.after, n)
  {
    ProtectedIsCounted(n);
  }

  lemma ProtectedIsCounted(n: StateName)
    requires Protected(n)
    ensures n !in Settings() && n !in Lookups()
  {}

  /** No call adds or removes a state name, and every result reports something. */
  lemma PlanKeepsNames(p: Plan, st: State)
    requires Perform(p, st).Some?
    ensures var o := Perform(p, st).value;
            o.before == st && o.after.Keys == st.Keys && Reportable(o.tokens)
  {}

  /** A plan never fails for its tokens: a call has an outcome exactly when it is
      planned and the state has what it counts and sets. */
  lemma StepExactlyWhen(k: Checks, call: Call, st: State)
    ensures Step(k, call, st).Some? <==> PlanFor(k, call, st).Plan? && Possible(st, Total(PlanFor(k, call, st)))
  {}

  /** A rejected call, of whatever role, dispatches, executes, records, charges,
      issues and forwards nothing. */
  lemma RejectedSpares(k: Checks, call: Call, st: State, n: StateName)
    requires Step(k, call, st).Some? && Step(k, call, st).value.decision == Rejected
    requires n in {ActionDispatchCount, ActionEffectCount, IdempotencyRecordCount, BudgetApplicationCharge, GrantIssuedCount,
                   CredentialIssuedCount, AdapterForwardedCount}
    ensures SameAt(st, Step(k, call, st).value.after, n)
  {
    PlanSpares(PlanFor(k, call, st), st, n);
  }

  lemma PlanChanges(p: Plan, st: State, condition: bool)
    requires Fine(p) && RejectsCounting(p, condition) && Perform(p, st).Some? && p.decision == Rejected
    ensures Perform(p, st).value.after == st <==> !condition
  {
    FineIsDisjoint(p);
    AfterIsSame(st, Total(p));
  }

  /** A rejected call leaves the whole state as it was exactly when it has counted
      no purpose look-up, no policy denial and no queued event. */
  lemma RejectedChangesNothing(k: Checks, call: Call, st: State)
    requires Step(k, call, st).Some? && Step(k, call, st).value.decision == Rejected
    ensures Step(k, call, st).value.after == st <==> Embedding(call) || !RoleCounts(k, call, st)
  {
    CallRejects(k, call, st);
    PlanChanges(PlanFor(k, call, st), st, !Embedding(call) && RoleCounts(k, call, st));
  }

  lemma QueuedPlan(k: Checks, d: Document, st: State)
    requires Section(d, "grant") == Section(d, "execution") == Section(d, "operational") == Some(map[])
    ensures PlanFor(k, Call(ActionExecutor, None, DeliverEvent, d), st)
         == Reply({}, Bumps({OperationalEventQueuedCount}), Rejected, [OperationalCapacityRejected, EventDeliveryQueued])
  {}

  lemma Unavailing(d: Document)
    requires d == map["grant" := JObj(map[]), "execution" := JObj(map[]), "operational" := JObj(map[])]
    ensures Section(d, "grant") == Section(d, "execution") == Section(d, "operational") == Some(map[])
  {
    assert |"grant"| == 5 && |"execution"| == 9 && |"operational"| == 11;
  }

  /** An event that is queued for want of capacity is a rejected call that changes
      the state. */
  lemma QueueingIsRejectedAndCounts(k: Checks, st: State)
    requires Countable(st, OperationalEventQueuedCount)
    ensures var d := map["grant" := JObj(map[]), "execution" := JObj(map[]), "operational" := JObj(map[])];
            var o := Step(k, Call(ActionExecutor, None, DeliverEvent, d), st);
            o.Some? && o.value.decision == Rejected && o.value.after != st
  {
    var d := map["grant" := JObj(map[]), "execution" := JObj(map[]), "operational" := JObj(map[])];
    Unavailing(d);
    var call := Call(ActionExecutor, None, DeliverEvent, d);
    QueuedPlan(k, d, st);
    var p := PlanFor(k, call, st);
    PlanChanges(p, st, true);
  }

  // ----- runs -----

  /** How a participant plans its calls. */
  type Behaviour = (Call, State) -> Plan

  /** The state a caller carries on with: a call that raises leaves none, and the
      old one is kept. */
  function Next(b: Behaviour, call: Call, st: State): State {
    match Perform(b(call, st), st) case Some(o) => o.after case None => st
  }

  function Run(b: Behaviour, calls: seq<Call>, st: State): State {
    if calls == [] then st else Run(b, calls[1..], Next(b, calls[0], st))
  }

  /** How many of the calls of a run end in a certain way. */
  function Tally(b: Behaviour, calls: seq<Call>, st: State, p: (Call, Outcome) -> bool): nat {
    if calls == [] then 0
    else
      var o := Perform(b(calls[0], st), st);
      One(o.Some? && p(calls[0], o.value)) + Tally(b, calls[1..], Next(b, calls[0], st), p)
  }

  function Growth(b: Behaviour, calls: seq<Call>, st: State, n: StateName): int { Count(Run(b, calls, st), n) - Count(st, n) }

  lemma {:induction false} RunKeepsNames(b: Behaviour, calls: seq<Call>, st: State)
    ensures Run(b, calls, st).Keys == st.Keys
  {
    if calls != [] {
      if Perform(b(calls[0], st), st).Some? {
        PlanKeepsNames(b(calls[0], st), st);
      }
      RunKeepsNames(b, calls[1..], Next(b, calls[0], st));
    }
  }

  /** The counters: everything that is not set. */
  predicate Counted(n: StateName) { n !in Settings() }

  predicate PlanBumps(p: Plan, st: State, n: StateName) { Perform(p, st).Some? && n in Total(p).bumped }

  lemma NextCounts(b: Behaviour, call: Call, st: State, n: StateName)
    requires Fine(b(call, st)) && Counted(n)
    ensures Count(Next(b, call, st), n) == Count(st, n) + One(PlanBumps(b(call, st), st, n))
  {
    if Perform(b(call, st), st).Some? {
      AfterCounts(st, Total(b(call, st)), n);
    }
  }

  ghost predicate AllFine(b: Behaviour) { forall c: Call, st: State :: Fine(b(c, st)) }

  /** The mock's own behaviour. */
  function Mock(k: Checks): Behaviour { (c: Call, st: State) => PlanFor(k, c, st) }

  lemma MockIsFine(k: Checks)
    ensures AllFine(Mock(k))
  {
    forall c: Call, st: State
      ensures Fine(Mock(k)(c, st))
    {}
  }

  lemma GrowthStep(b: Behaviour, calls: seq<Call>, st: State, n: StateName)
    requires calls != [] && Fine(b(calls[0], st)) && Counted(n)
    ensures Growth(b, calls, st, n)
         == One(PlanBumps(b(calls[0], st), st, n)) + Growth(b, calls[1..], Next(b, calls[0], st), n)
  {
    NextCounts(b, calls[0], st, n);
  }

  lemma LeaderIsCounted(n: StateName)
    requires Counted(n)
    ensures Counted(Leader(n)) && (n in Lookups() ==> Leader(n) == n) && (n !in Lookups() ==> Leader(n) !in Lookups())
  {}

  lemma {:induction false} FineGroups(b: Behaviour, calls: seq<Call>, st: State, n: StateName)
    requires AllFine(b) && Counted(n) && Counted(Leader(n))
    ensures Growth(b, calls, st, n) == Growth(b, calls, st, Leader(n))
  {
    if calls != [] {
      var p := b(calls[0], st);
      assert Fine(p);
      GrowthStep(b, calls, st, n);
      GrowthStep(b, calls, st, Leader(n));
      LeaderIsCounted(n);
      if p.Plan? {
        InStepIsByLeader(p.changes.bumped, n);
      }
      FineGroups(b, calls[1..], Next(b, calls[0], st), n);
    }
  }

  /** Over every run of calls of any roles, each group of counters grows by the same amount:
      effects, idempotency records and charges; grants and credentials;
      manifests and version bindings; the four marks of a revocation; the five
      marks of a first delivery; the two marks of a proposal. */
  lemma GroupsGrowTogether(k: Checks, calls: seq<Call>, st: State, n: StateName)
    requires Counted(n)
    ensures Growth(Mock(k), calls, st, n) == Growth(Mock(k), calls, st, Leader(n))
  {
    MockIsFine(k);
    LeaderIsCounted(n);
    FineGroups(Mock(k), calls, st, n);
  }

  lemma {:induction false} FineGrows(b: Behaviour, calls: seq<Call>, st: State, n: StateName)
    requires AllFine(b) && Counted(n)
    ensures 0 <= Growth(b, calls, st, n) <= |calls|
  {
    if calls != [] {
      assert Fine(b(calls[0], st));
      GrowthStep(b, calls, st, n);
      FineGrows(b, calls[1..], Next(b, calls[0], st), n);
    }
  }

  /** No counter ever goes down, and none goes up faster than the calls. */
  lemma CountersOnlyGrow(k: Checks, calls: seq<Call>, st: State, n: StateName)
    requires Counted(n)
    ensures 0 <= Growth(Mock(k), calls, st, n) <= |calls|
  {
    MockIsFine(k);
    FineGrows(Mock(k), calls, st, n);
  }

  /** The counter that a token reports. */
  function CounterOf(t: Token): Option<StateName> {
    match t
    case ApplicationReceiptEmitted => Some(ReceiptApplicationCount)
    case SessionFenced => Some(PurposeBindingSessionFenceCount)
    case GrantIssued => Some(GrantIssuedCount)
    case _ => None
  }

  lemma TruthBumps(p: Plan, t: Token)
    requires Fine(p) && p.Plan? && CounterOf(t).Some?
    ensures CounterOf(t).value in p.changes.bumped <==> t in p.tokens
  {}

  lemma {:induction false} FineReports(b: Behaviour, calls: seq<Call>, st: State, t: Token)
    requires AllFine(b) && CounterOf(t).Some?
    ensures Growth(b, calls, st, CounterOf(t).value) == Tally(b, calls, st, (c: Call, o: Outcome) => t in o.tokens)
  {
    if calls != [] {
      var p := b(calls[0], st);
      assert Fine(p);
      if p.Plan? {
        TruthBumps(p, t);
      }
      CounterIsCounted(t);
      GrowthStep(b, calls, st, CounterOf(t).value);
      FineReports(b, calls[1..], Next(b, calls[0], st), t);
    }
  }

  lemma CounterIsCounted(t: Token)
    requires CounterOf(t).Some?
    ensures Counted(CounterOf(t).value)
  {}

  /** Over every run of calls of any roles, the application receipts counted are
      the results that report one; the same holds of session fences and issued
      grants. */
  lemma CountersAreReported(k: Checks, calls: seq<Call>, st: State, t: Token)
    requires CounterOf(t).Some?
    ensures Growth(Mock(k), calls, st, CounterOf(t).value)
         == Tally(Mock(k), calls, st, (c: Call, o: Outcome) => t in o.tokens)
  {
    MockIsFine(k);
    FineReports(Mock(k), calls, st, t);
  }

  // ----- runs of the Action Executor -----

  predicate ByExecutor(calls: seq<Call>) { forall i :: 0 <= i < |calls| ==> calls[i].profile == ActionExecutor }

  ghost predicate ExecutorBehaviour(b: Behaviour) {
    forall c: Call, st: State :: Fine(b(c, st)) && (c.profile == ActionExecutor ==> ExecutorFine(b(c, st), c.operation))
  }

  predicate IsAcceptance(o: Outcome) { ActionAccepted in o.tokens }

  predicate IsDenial(o: Outcome) { o.error == Some(RiskDenied) }

  lemma {:induction false} FineActions(b: Behaviour, calls: seq<Call>, st: State)
    requires ExecutorBehaviour(b) && ByExecutor(calls)
    ensures Growth(b, calls, st, ActionDispatchCount) == Growth(b, calls, st, ActionEffectCount)
    ensures Growth(b, calls, st, ActionDispatchCount) == Tally(b, calls, st, (c: Call, o: Outcome) => IsAcceptance(o))
    ensures Growth(b, calls, st, ReceiptApplicationCount)
         == Growth(b, calls, st, ActionEffectCount) + Tally(b, calls, st, (c: Call, o: Outcome) => IsDenial(o))
  {
    if calls != [] {
      var p := b(calls[0], st);
      assert ExecutorFine(p, calls[0].operation);
      assert Fine(p);
      GrowthStep(b, calls, st, ActionDispatchCount);
      GrowthStep(b, calls, st, ActionEffectCount);
      GrowthStep(b, calls, st, ReceiptApplicationCount);
      FineActions(b, calls[1..], Next(b, calls[0], st));
    }
  }

  lemma {:induction false} FineEvents(b: Behaviour, calls: seq<Call>, st: State)
    requires ExecutorBehaviour(b) && ByExecutor(calls)
    ensures Growth(b, calls, st, OperationalEventTransmissionCount)
         == Growth(b, calls, st, OperationalEventFirstDeliveryCount)
            + Tally(b, calls, st, (c: Call, o: Outcome) => c.operation == RetransmitEvent)
  {
    if calls != [] {
      var p := b(calls[0], st);
      assert ExecutorFine(p, calls[0].operation);
      assert Fine(p);
      GrowthStep(b, calls, st, OperationalEventTransmissionCount);
      GrowthStep(b, calls, st, OperationalEventFirstDeliveryCount);
      FineEvents(b, calls[1..], Next(b, calls[0], st));
    }
  }

  /** Over every run of the Action Executor, actions dispatched are actions
      executed and results that accept one; application receipts exceed them by exactly the policy denials;
      event transmissions exceed first deliveries by exactly the
      retransmissions. */
  lemma ExecutorLedger(k: Checks, calls: seq<Call>, st: State)
    requires ByExecutor(calls)
    ensures Growth(Mock(k), calls, st, ActionDispatchCount) == Growth(Mock(k), calls, st, ActionEffectCount)
    ensures Growth(Mock(k), calls, st, ActionDispatchCount)
         == Tally(Mock(k), calls, st, (c: Call, o: Outcome) => IsAcceptance(o))
    ensures Growth(Mock(k), calls, st, ReceiptApplicationCount)
         == Growth(Mock(k), calls, st, ActionEffectCount)
            + Tally(Mock(k), calls, st, (c: Call, o: Outcome) => IsDenial(o))
    ensures Growth(Mock(k), calls, st, OperationalEventTransmissionCount)
         == Growth(Mock(k), calls, st, OperationalEventFirstDeliveryCount)
            + Tally(Mock(k), calls, st, (c: Call, o: Outcome) => c.operation == RetransmitEvent)
  {
    forall c: Call, t: State
      ensures Fine(Mock(k)(c, t)) && (c.profile == ActionExecutor ==> ExecutorFine(Mock(k)(c, t), c.operation))
    {}
    FineActions(Mock(k), calls, st);
    FineEvents(Mock(k), calls, st);
  }

  // ----- revocation -----

  /** Whichever call counts a revocation leaves the grant revoked, nothing active
      and the confirmation flag set. */
  lemma RevocationIsTotal(k: Checks, call: Call, st: State)
    requires Step(k, call, st).Some?
    requires Count(Step(k, call, st).value.after, RevocationEffectiveCount) != Count(st, RevocationEffectiveCount)
    ensures FullyRevoked(Step(k, call, st).value.after)
  {
    PlanRevokes(PlanFor(k, call, st), st);
  }

  /** The Grant is revoked, nothing under it is active, and that is confirmed. */
  predicate FullyRevoked(st: State) {
    && Holds(st, GrantLifecycle, JStr("revoked"))
    && Holds(st, GrantChildActiveCount, JInt(0)) && Holds(st, CredentialActiveCount, JInt(0))
    && Holds(st, ProofSessionActiveCount, JInt(0)) && Holds(st, ExecutionTokenActiveCount, JInt(0))
    && Holds(st, ReservationActiveCount, JInt(0)) && Holds(st, RevocationConfirmedAfterEffective, JBool(true))
  }

  predicate Holds(st: State, n: StateName, value: Json) { n in st && st[n] == value }

  lemma AfterRevoking(st: State, c: Changes)
    requires Possible(st, c) && c.settled == Revoked()
    ensures FullyRevoked(After(st, c))
  {
    forall n | n in Revoked()
      ensures n in After(st, c) && After(st, c)[n] == Revoked()[n]
    {
      assert n in c.settled.Keys;
    }
  }

  lemma PlanRevokes(p: Plan, st: State)
    requires Fine(p) && Perform(p, st).Some?
    requires Count(Perform(p, st).value.after, RevocationEffectiveCount) != Count(st, RevocationEffectiveCount)
    ensures FullyRevoked(Perform(p, st).value.after)
  {
    AfterCounts(st, Total(p), RevocationEffectiveCount);
    AfterRevoking(st, Total(p));
  }

  /** A retry that is scheduled waits, and the local windows start again. */
  lemma RetriesWait(k: Checks, call: Call, st: State)
    requires Step(k, call, st).Some?
    requires Count(Step(k, call, st).value.after, RuntimeRetryCount) != Count(st, RuntimeRetryCount)
    ensures var after := Step(k, call, st).value.after;
            Holds(after, RuntimeRetryWaitPending, JBool(true))
            && Holds(after, RuntimeLocalWindowCount, JInt(0)) && Holds(after, RuntimeLocalInFlightCount, JInt(0))
  {
    PlanWaits(PlanFor(k, call, st), st);
  }

  lemma PlanWaits(p: Plan, st: State)
    requires Fine(p) && Perform(p, st).Some?
    requires Count(Perform(p, st).value.after, RuntimeRetryCount) != Count(st, RuntimeRetryCount)
    ensures Waits(Perform(p, st).value.after)
  {
    AfterCounts(st, Total(p), RuntimeRetryCount);
    assert Waits(p.changes.settled);
    forall n | n in p.changes.settled
      ensures n in Perform(p, st).value.after && Perform(p, st).value.after[n] == p.changes.settled[n]
    {
      assert n in p.changes.settled.Keys;
    }
  }

  lemma PlanRevokesOrReplays(p: Plan, st: State)
    requires RevokesOrReplays(p) && Perform(p, st).Some?
    ensures var o := Perform(p, st).value;
            if o.decision == Accepted then FullyRevoked(o.after) else o.after == st
  {
    if p.decision == Accepted {
      AfterRevoking(st, Total(p));
    }
  }

  lemma GuardedRevokes(guard: Option<(seq<string>, seq<Token>)>, d: Document, p: Plan)
    requires RevokesOrReplays(p)
    ensures RevokesOrReplays(Guarded(guard, d, p))
  {}

  /** Revoking a grant either revokes it totally, or finds it revoked, or is
      refused, without touching the state. */
  lemma RevokingRevokesOrReplays(k: Checks, call: Call, st: State)
    requires call.profile == GrantIssuer && call.operation == RevokeGrant && Step(k, call, st).Some?
    ensures var o := Step(k, call, st).value;
            if o.decision == Accepted then FullyRevoked(o.after) else o.after == st
  {
    GuardedRevokes(ImpactGuard(call.profile, call.operation), call.document, RolePlan(k, call, st));
    PlanRevokesOrReplays(PlanFor(k, call, st), st);
  }

  // ----- purposes -----

  /** Each binding is its predecessor or a narrower one. */
  predicate Chain(bindings: seq<Binding>) {
    forall i, j :: 0 <= i && j == i + 1 < |bindings| ==> Attenuation(bindings[i], bindings[j]) != Wider
  }

  /** However long the chain of delegation, its last Grant is for the first one's
      purpose and no wider, and a task once bound is never changed. */
  lemma {:induction false} ChainNeverWidens(bindings: seq<Binding>, i: nat, j: nat)
    requires Chain(bindings) && i <= j < |bindings|
    ensures Attenuation(bindings[i], bindings[j]) != Wider
    ensures bindings[j].purpose == bindings[i].purpose
    ensures bindings[i].task.Some? ==> bindings[j].task == bindings[i].task
    decreases j
  {
    if i < j {
      ChainNeverWidens(bindings, i, j - 1);
    }
  }
}
