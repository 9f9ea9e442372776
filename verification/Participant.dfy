/** A mock participant: `execute` evaluates one call and writes the journal,
    `observe` reads the journal and reports what happened. */
module Participant {
  import opened Wrappers
  import opened Ordering
  import opened JsonDiff
  import opened MockNames
  import opened MockState
  import opened MockRoles
  import MockLedger
  import Observations
  import P = JournalProtocol
  import J = JournalStore

  const PROTOCOL: string := "asp-mock-participant/1"

  datatype Case = Case(profileId: string, producerRole: Option<string>, vectorId: string, operation: string,
                       document: Document, initialState: seq<Item>, counterparts: seq<string>)

  datatype ExecuteRequest = ExecuteRequest(adapterProtocol: string, suiteFixture: bool, profileId: string,
                                           producerRole: Option<string>, boundaryId: string, runId: string, vectorId: string,
                                           subjectSha: string, harnessSha: string, work: Case)

  datatype ObserveRequest = ObserveRequest(probeProtocol: string, operation: string, profileId: string,
                                           producerRole: Option<string>, boundaryId: string, runId: string, vectorId: string,
                                           subjectSha: string, harnessSha: string, requestedStates: seq<string>)

  datatype Report = Report(observationId: string, vectorId: string, runId: string, subjectSha: string, harnessSha: string,
                           counterparts: seq<string>, tokens: seq<string>, deltas: seq<Observations.Delta>,
                           error: Option<Json>, policyReason: Option<Json>, matchReason: Option<Json>)

  datatype ParticipantError =
    | BadRequest
    | BehaviourFailed
    | StoreRefused
    | JournalUnreadable
    | JournalMalformed
    | JournalStale
    | StatesNotCanonical
    | StatesNotCovered

  // ----- spelling the state out -----

  function Spellings(st: State): set<string> { set n | n in st :: SpellState(n) }

  function Spelled(st: State): map<string, Json> { map s | s in Spellings(st) && Named(s) in st :: st[Named(s)] }

  predicate Canonical(st: State) { forall n :: n in st ==> Named(SpellState(n)) == n }

  lemma SpelledMeans(st: State)
    requires Canonical(st)
    ensures Spelled(st).Keys == Spellings(st)
    ensures forall s :: s in Spelled(st) ==> Named(s) in st && Spelled(st)[s] == st[Named(s)]
  {
    forall s | s in Spellings(st)
      ensures Named(s) in st
    {
      var n :| n in st && SpellState(n) == s;
    }
  }

  lemma SpelledItems(items: seq<Item>, i: nat)
    requires InitialState(items).Some? && i < |items|
    ensures items[i].name in Spelled(InitialState(items).value)
    ensures Spelled(InitialState(items).value)[items[i].name] == items[i].value
  {
    var st := InitialState(items).value;
    StateNamesAreItemNames(items);
    CollectMeans(items);
    SpelledMeans(st);
    assert Named(items[i].name) in st && SpellState(Named(items[i].name)) == items[i].name;
  }

  function Strings(xs: seq<string>): seq<Json> { seq(|xs|, i requires 0 <= i < |xs| => JStr(xs[i])) }

  function TokenStrings(spell: Spelling, tokens: seq<Token>): seq<string> {
    seq(|tokens|, i requires 0 <= i < |tokens| => spell(tokens[i]))
  }

  // ----- execute -----

  function RoleNamed(role: Option<string>): Option<ProducerRole> {
    if role == Some("application") then Some(Application)
    else if role == Some("runtime") then Some(Runtime)
    else None
  }

  function SpellFamily(f: Family): string { match f case App => "app" case RuntimeFamily => "runtime" }

  predicate Belongs(f: Family, profileId: string, role: Option<string>) {
    FamilyFor(ProfileNamed(profileId), RoleNamed(role)) == Some(f)
  }

  /** The limits a `Scope` puts on its three names. */
  predicate ValidScope(s: P.Scope) {
    0 < |s.runId| <= 512 && 0 < |s.vectorId| <= 512 && 0 < |s.boundaryId| <= 512
  }

  function ScopeOf(r: ExecuteRequest): P.Scope { P.Scope(r.runId, r.vectorId, r.boundaryId) }

  function Head(f: Family, r: ExecuteRequest): P.Journal {
    map["schema_version" := JInt(1),
        "participant_protocol" := JStr(PROTOCOL),
        "run_id" := JStr(r.runId),
        "vector_id" := JStr(r.vectorId),
        "boundary_id" := JStr(r.boundaryId),
        "subject_sha256" := JStr(r.subjectSha),
        "harness_sha256" := JStr(r.harnessSha),
        "family" := JStr(SpellFamily(f)),
        "profile_id" := JStr(r.profileId),
        "operation" := JStr(r.work.operation),
        "counterpart_sha256s" := JArr([])]
  }

  function Body(spell: Spelling, o: Outcome): P.Journal {
    map["decision" := JStr(SpellDecision(o.decision)),
        "tokens" := JArr(Strings(TokenStrings(spell, o.tokens))),
        "state_before" := JObj(Spelled(o.before)),
        "state_after" := JObj(Spelled(o.after))]
  }

  function Maybe(name: string, value: Option<string>): P.Journal {
    if value.Some? then map[name := JStr(value.value)] else map[]
  }

  function Codes(o: Outcome): P.Journal {
    Maybe("asp_error", if o.error.Some? then Some(SpellError(o.error.value)) else None)
    + Maybe("policy_reason", if o.policyReason.Some? then Some(SpellReason(o.policyReason.value)) else None)
    + Maybe("match_reason", if o.matchReason.Some? then Some(SpellReason(o.matchReason.value)) else None)
  }

  function JournalOf(spell: Spelling, f: Family, r: ExecuteRequest, o: Outcome): P.Journal {
    Head(f, r) + Body(spell, o) + Codes(o) + Maybe("producer_role", r.producerRole)
  }

  /** The request is for this family, and its case is for the same subject. */
  predicate Addressed(f: Family, r: ExecuteRequest) {
    && r.adapterProtocol == "asp-conformance-adapter/1" && r.suiteFixture
    && r.work.profileId == r.profileId && r.work.producerRole == r.producerRole
    && Belongs(f, r.profileId, r.producerRole) && r.vectorId == r.work.vectorId
  }

  function CallOf(r: ExecuteRequest): Call {
    Call(ProfileNamed(r.profileId), RoleNamed(r.producerRole), OperationNamed(r.work.operation), r.work.document)
  }

  /** How a call is evaluated on an initial state. */
  type Evaluator = (Call, seq<Item>) -> Option<Outcome>

  function MockEvaluator(k: Checks): Evaluator { (c: Call, items: seq<Item>) => Evaluation(k, c, items) }

  /** The outcome `execute` journals, if it gets that far. */
  function Executed(e: Evaluator, f: Family, r: ExecuteRequest): Result<Outcome, ParticipantError> {
    if !Addressed(f, r) then Err(BadRequest) else Evaluated(r, e(CallOf(r), r.work.initialState))
  }

  function Evaluated(r: ExecuteRequest, evaluation: Option<Outcome>): Result<Outcome, ParticipantError> {
    match evaluation
    case None => Err(BehaviourFailed)
    case Some(o) => if !ValidScope(ScopeOf(r)) || r.work.counterparts != [] then Err(BadRequest) else Ok(o)
  }

  function Prepared(spell: Spelling, e: Evaluator, f: Family, r: ExecuteRequest): Result<P.Journal, ParticipantError> {
    match Executed(e, f, r) case Err(error) => Err(error) case Ok(o) => Ok(JournalOf(spell, f, r, o))
  }

  method Prepare(spell: Spelling, k: Checks, f: Family, r: ExecuteRequest) returns (p: Result<P.Journal, ParticipantError>)
    ensures p == Prepared(spell, MockEvaluator(k), f, r)
  {
    if !Addressed(f, r) {
      return Err(BadRequest);
    }
    var o := Evaluate(k, CallOf(r), r.work.initialState);
    var accepted := Evaluated(r, o);
    match accepted {
      case Err(error) => return Err(error);
      case Ok(outcome) => return Ok(JournalOf(spell, f, r, outcome));
    }
  }

  method Execute(spell: Spelling, k: Checks, f: Family, r: ExecuteRequest, store: J.Store, fault: J.Fault)
    returns (result: Result<(), ParticipantError>)
    modifies store
    ensures match Prepared(spell, MockEvaluator(k), f, r)
            case Err(e) => result == Err(e) && store.disk == old(store.disk)
            case Ok(journal) =>
              && store.disk == J.After(store.codec, old(store.disk), ScopeOf(r), journal, fault)
              && result == (if J.Verdict(store.codec, old(store.disk), ScopeOf(r), journal, fault).Ok?
                            then Ok(()) else Err(StoreRefused))
  {
    var p := Prepare(spell, k, f, r);
    if p.Err? {
      return Err(p.error);
    }
    var written := store.Initialize(ScopeOf(r), p.value, fault);
    return if written.Ok? then Ok(()) else Err(StoreRefused);
  }

  // ----- observe -----

  const HEAD: set<string> := {"schema_version", "participant_protocol", "run_id", "vector_id", "boundary_id",
                              "subject_sha256", "harness_sha256", "family", "profile_id", "operation", "counterpart_sha256s"}

  const BODY: set<string> := {"decision", "tokens", "state_before", "state_after"}

  const REQUIRED: set<string> := HEAD + BODY

  const OPTIONAL: set<string> := {"producer_role", "asp_error", "policy_reason", "match_reason"}

  /** A JSON array of different strings. */
  function StringsIn(j: Json): Option<seq<string>> {
    if j.JArr? && (forall i :: 0 <= i < |j.items| ==> j.items[i].JStr?)
       && (forall i, k :: 0 <= i < k < |j.items| ==> j.items[i] != j.items[k])
    then Some(seq(|j.items|, i requires 0 <= i < |j.items| => j.items[i].s))
    else None
  }

  function Optionally(j: P.Journal, name: string): Option<Json> { if name in j then Some(j[name]) else None }

  function DeltasOf(names: seq<string>, before: map<string, Json>, after: map<string, Json>): seq<Observations.Delta>
    requires forall n :: n in names ==> n in before && n in after
  {
    seq(|names|, i requires 0 <= i < |names| => Observations.Delta(names[i], before[names[i]], after[names[i]]))
  }

  function Observed(f: Family, r: ObserveRequest, j: P.Journal): Result<Report, ParticipantError> {
    if !(REQUIRED <= j.Keys && j.Keys <= REQUIRED + OPTIONAL) then Err(JournalMalformed)
    else if !Equal(j["schema_version"], JInt(1)) || j["participant_protocol"] != JStr(PROTOCOL) then Err(JournalMalformed)
    else
      var tokens, counterparts := StringsIn(j["tokens"]), StringsIn(j["counterpart_sha256s"]);
      if tokens.None? || tokens.value == [] || "" in tokens.value || counterparts.None? then Err(JournalMalformed)
      else if j["subject_sha256"] != JStr(r.subjectSha) || j["harness_sha256"] != JStr(r.harnessSha)
              || j["family"] != JStr(SpellFamily(f)) || j["profile_id"] != JStr(r.profileId)
              || Field(j, "producer_role") != (if r.producerRole.Some? then JStr(r.producerRole.value) else JNull)
      then Err(JournalStale)
      else if !Ascending(r.requestedStates) then Err(StatesNotCanonical)
        else if !j["state_before"].JObj? || !j["state_after"].JObj? then Err(JournalMalformed)
        else
          var before, after := j["state_before"].members, j["state_after"].members;
          var requested := set n | n in r.requestedStates;
          if requested != before.Keys || before.Keys != after.Keys then Err(StatesNotCovered)
          else
            assert forall n :: n in r.requestedStates ==> n in requested;
            Ok(Report("obs-mock-" + r.vectorId, r.vectorId, r.runId, r.subjectSha, r.harnessSha, counterparts.value, tokens.value,
                      DeltasOf(r.requestedStates, before, after),
                      Optionally(j, "asp_error"), Optionally(j, "policy_reason"), Optionally(j, "match_reason")))
  }

  function ObserveScope(r: ObserveRequest): P.Scope { P.Scope(r.runId, r.vectorId, r.boundaryId) }

  predicate Probes(f: Family, r: ObserveRequest) {
    && r.probeProtocol == "asp-conformance-probe/1" && r.operation == "observe"
    && Belongs(f, r.profileId, r.producerRole) && ValidScope(ObserveScope(r))
  }

  function ObservedOn(c: P.Codec, disk: J.Disk, f: Family, r: ObserveRequest): Result<Report, ParticipantError> {
    if !Probes(f, r) then Err(BadRequest)
    else
      match J.Readable(c, disk, ObserveScope(r))
      case Err(_) => Err(JournalUnreadable)
      case Ok(j) => Observed(f, r, j)
  }

  method Observe(f: Family, r: ObserveRequest, store: J.Store) returns (result: Result<Report, ParticipantError>)
    ensures result == ObservedOn(store.codec, store.disk, f, r)
  {
    if !Probes(f, r) {
      return Err(BadRequest);
    }
    var j := store.Read(ObserveScope(r));
    if j.Err? {
      return Err(JournalUnreadable);
    }
    return Observed(f, r, j.value);
  }

  // ----- when execute and observe succeed, and how they fail -----

  /** The family that serves a profile; a Receipt Producer by its role. */
  predicate Serves(f: Family, profileId: string, role: Option<string>) {
    match ProfileNamed(profileId)
    case SurfacePublisher => f == App
    case GrantIssuer => f == App
    case ActionExecutor => f == App
    case RuntimeMediator => f == RuntimeFamily
    case AgentAdapter => f == RuntimeFamily
    case ReceiptProducer => role == Some(match f case App => "application" case RuntimeFamily => "runtime")
    case OtherProfile(_) => false
  }

  predicate NamesFit(runId: string, vectorId: string, boundaryId: string) {
    && 1 <= |runId| && |runId| < 513 && 1 <= |vectorId| && |vectorId| < 513 && 1 <= |boundaryId| && |boundaryId| < 513
  }

  /** The request follows the adapter's protocol and its case is the subject's. */
  predicate Asked(f: Family, r: ExecuteRequest) {
    && r.adapterProtocol == "asp-conformance-adapter/1" && r.suiteFixture && Serves(f, r.profileId, r.producerRole)
    && r.work.profileId == r.profileId && r.work.producerRole == r.producerRole && r.work.vectorId == r.vectorId
  }

  /** A request is executed exactly if it is asked of this family, the behaviour
      does not fail, its names fit and no counterparts are given. */
  lemma ExecutedMeans(e: Evaluator, f: Family, r: ExecuteRequest)
    ensures var evaluation, executed := e(CallOf(r), r.work.initialState), Executed(e, f, r);
            var fits := NamesFit(r.runId, r.vectorId, r.boundaryId) && r.work.counterparts == [];
            && (forall o :: executed == Ok(o) <==> Asked(f, r) && evaluation == Some(o) && fits)
            && (executed == Err(BehaviourFailed) <==> Asked(f, r) && evaluation.None?)
            && (executed == Err(BadRequest) <==> !Asked(f, r) || (evaluation.Some? && !fits))
    ensures CallOf(r).role == (if r.producerRole == Some("application") then Some(Application)
                               else if r.producerRole == Some("runtime") then Some(Runtime) else None)
  {}

  predicate AllStrings(j: Json) {
    && j.JArr? && (forall i :: 0 <= i < |j.items| ==> j.items[i].JStr?)
    && forall i, k :: 0 <= i < |j.items| && 0 <= k < |j.items| && j.items[i] == j.items[k] ==> i == k
  }

  /** A journal of the closed shape, with some tokens, all different and named, and
      counterparts all different. */
  predicate ClosedJournal(j: P.Journal) {
    && REQUIRED <= j.Keys <= REQUIRED + OPTIONAL
    && Observations.PyEqual(j["schema_version"], JInt(1)) && j["participant_protocol"] == JStr("asp-mock-participant/1")
    && AllStrings(j["tokens"]) && AllStrings(j["counterpart_sha256s"])
    && |j["tokens"].items| > 0 && forall i :: 0 <= i < |j["tokens"].items| ==> j["tokens"].items[i] != JStr("")
  }

  /** It is of the subject, harness, family, profile and role that are asked for. */
  predicate Current(f: Family, r: ObserveRequest, j: P.Journal)
    requires ClosedJournal(j)
  {
    && j["subject_sha256"] == JStr(r.subjectSha) && j["harness_sha256"] == JStr(r.harnessSha)
    && j["family"] == JStr(match f case App => "app" case RuntimeFamily => "runtime") && j["profile_id"] == JStr(r.profileId)
    && match r.producerRole
       case Some(role) => "producer_role" in j && j["producer_role"] == JStr(role)
       case None => "producer_role" !in j || j["producer_role"] == JNull
  }

  lemma StringsAreRead(j: Json)
    ensures StringsIn(j).Some? <==> AllStrings(j)
    ensures StringsIn(j).Some? ==> |StringsIn(j).value| == |j.items|
                                   && forall i :: 0 <= i < |j.items| ==> JStr(StringsIn(j).value[i]) == j.items[i]
  {}

  predicate ObjectStates(j: P.Journal)
    requires ClosedJournal(j)
  {
    j["state_before"].JObj? && j["state_after"].JObj?
  }

  /** The states asked for are all the states there are. */
  ghost predicate AsksForAll(r: ObserveRequest, j: P.Journal)
    requires ClosedJournal(j) && ObjectStates(j)
  {
    forall n :: (n in r.requestedStates <==> n in j["state_before"].members)
                && (n in r.requestedStates <==> n in j["state_after"].members)
  }

  lemma ShapeMeans(j: P.Journal)
    ensures ClosedJournal(j) <==>
            && REQUIRED <= j.Keys && j.Keys <= REQUIRED + OPTIONAL
            && Equal(j["schema_version"], JInt(1)) && j["participant_protocol"] == JStr(PROTOCOL)
            && StringsIn(j["tokens"]).Some? && StringsIn(j["tokens"]).value != [] && "" !in StringsIn(j["tokens"]).value
            && StringsIn(j["counterpart_sha256s"]).Some?
  {
    if REQUIRED <= j.Keys {
      StringsAreRead(j["tokens"]);
      StringsAreRead(j["counterpart_sha256s"]);
      if StringsIn(j["tokens"]).Some? {
        var tokens := StringsIn(j["tokens"]).value;
        forall i | 0 <= i < |tokens|
          ensures tokens[i] == "" <==> j["tokens"].items[i] == JStr("")
        {}
      }
    }
  }

  lemma CoversMeans(r: ObserveRequest, j: P.Journal)
    requires ClosedJournal(j) && ObjectStates(j)
    ensures var before, after := j["state_before"].members, j["state_after"].members;
            (set n | n in r.requestedStates) == before.Keys == after.Keys <==> AsksForAll(r, j)
  {
    var before, after, requested := j["state_before"].members, j["state_after"].members, set n | n in r.requestedStates;
    if requested == before.Keys == after.Keys {
      forall n
        ensures (n in r.requestedStates <==> n in before) && (n in r.requestedStates <==> n in after)
      {
        assert n in requested <==> n in r.requestedStates;
      }
    }
  }

  /** What a journal is read as: a report exactly if it is well formed, current,
      and its states are asked for in order and completely; else the first of
      these that fails is reported. */
  lemma ObservedMeans(f: Family, r: ObserveRequest, j: P.Journal)
    ensures var o := Observed(f, r, j);
            && (o.Ok? <==> ClosedJournal(j) && Current(f, r, j) && Ascending(r.requestedStates) && ObjectStates(j) && AsksForAll(r, j))
            && (o == Err(JournalMalformed) <==>
                !ClosedJournal(j) || (Current(f, r, j) && Ascending(r.requestedStates) && !ObjectStates(j)))
            && (o == Err(JournalStale) <==> ClosedJournal(j) && !Current(f, r, j))
            && (o == Err(StatesNotCanonical) <==> ClosedJournal(j) && Current(f, r, j) && !Ascending(r.requestedStates))
            && (o == Err(StatesNotCovered) <==>
                ClosedJournal(j) && Current(f, r, j) && Ascending(r.requestedStates) && ObjectStates(j) && !AsksForAll(r, j))
  {
    ShapeMeans(j);
    if ClosedJournal(j) && ObjectStates(j) {
      CoversMeans(r, j);
    }
  }

  /** What a report says: who and what was asked for, the journal's tokens, and each
      requested state before and after. */
  lemma ReportMeans(f: Family, r: ObserveRequest, j: P.Journal)
    requires Observed(f, r, j).Ok?
    ensures ClosedJournal(j) && ObjectStates(j) && AsksForAll(r, j)
    ensures var report := Observed(f, r, j).value;
            && report.vectorId == r.vectorId && report.runId == r.runId
            && report.subjectSha == r.subjectSha && report.harnessSha == r.harnessSha
            && Some(report.tokens) == StringsIn(j["tokens"]) && Some(report.counterparts) == StringsIn(j["counterpart_sha256s"])
            && report.deltas == DeltasOf(r.requestedStates, j["state_before"].members, j["state_after"].members)
            && report.error == Optionally(j, "asp_error")
            && report.policyReason == Optionally(j, "policy_reason") && report.matchReason == Optionally(j, "match_reason")
  {
    ObservedMeans(f, r, j);
  }

  lemma ProbesMean(f: Family, r: ObserveRequest)
    ensures Probes(f, r) <==>
            r.probeProtocol == "asp-conformance-probe/1" && r.operation == "observe"
            && Serves(f, r.profileId, r.producerRole) && NamesFit(r.runId, r.vectorId, r.boundaryId)
  {}

  /** And before that: a request of another protocol or family is bad, and a
      journal that cannot be read is reported as such. */
  lemma ObservedOnMeans(c: P.Codec, disk: J.Disk, f: Family, r: ObserveRequest)
    ensures var asked := r.probeProtocol == "asp-conformance-probe/1" && r.operation == "observe"
                         && Serves(f, r.profileId, r.producerRole) && NamesFit(r.runId, r.vectorId, r.boundaryId);
            var journal := J.Readable(c, disk, P.Scope(r.runId, r.vectorId, r.boundaryId));
            ObservedOn(c, disk, f, r) == if !asked then Err(BadRequest)
            else if journal.Err? then Err(JournalUnreadable)
            else Observed(f, r, journal.value)
  {
    ProbesMean(f, r);
  }

  // ----- the journal's members -----

  lemma Apart()
    ensures "schema_version" != "subject_sha256" && "schema_version" != "harness_sha256" && "subject_sha256" != "harness_sha256"
    ensures "run_id" != "family" && "run_id" != "tokens" && "family" != "tokens"
    ensures "vector_id" != "operation" && "vector_id" != "asp_error" && "operation" != "asp_error"
    ensures "boundary_id" != "state_after" && "state_before" != "match_reason" && "producer_role" != "policy_reason"
  {
    assert "schema_version"[1] == 'c' && "subject_sha256"[1] == 'u' && "harness_sha256"[1] == 'a';
    assert "run_id"[0] == 'r' && "family"[0] == 'f' && "tokens"[0] == 't';
    assert "vector_id"[0] == 'v' && "operation"[0] == 'o' && "asp_error"[0] == 'a';
    assert "boundary_id"[0] == 'b' && "state_after"[0] == 's' && "state_before"[0] == 's' && "match_reason"[0] == 'm';
    assert "producer_role"[1] == 'r' && "policy_reason"[1] == 'o';
  }

  lemma HeadKeys(f: Family, r: ExecuteRequest)
    ensures Head(f, r).Keys == HEAD
  {}

  lemma HeadScope(f: Family, r: ExecuteRequest)
    ensures P.Names(Head(f, r), ScopeOf(r))
  {
    Apart();
  }

  lemma HeadMembers(f: Family, r: ExecuteRequest)
    ensures var j := Head(f, r);
            && HEAD <= j.Keys
            && j["schema_version"] == JInt(1) && j["participant_protocol"] == JStr(PROTOCOL)
            && j["subject_sha256"] == JStr(r.subjectSha) && j["harness_sha256"] == JStr(r.harnessSha)
            && j["family"] == JStr(SpellFamily(f)) && j["profile_id"] == JStr(r.profileId)
            && j["counterpart_sha256s"] == JArr([])
  {
    Apart();
  }

  lemma BodyMembers(spell: Spelling, o: Outcome)
    ensures var j := Body(spell, o);
            && j.Keys == BODY
            && j["tokens"] == JArr(Strings(TokenStrings(spell, o.tokens)))
            && j["state_before"] == JObj(Spelled(o.before)) && j["state_after"] == JObj(Spelled(o.after))
  {
    Apart();
  }

  lemma CodeMembers(o: Outcome)
    ensures Codes(o).Keys <= {"asp_error", "policy_reason", "match_reason"}
  {}

  /** The members that must be there are none of those that may. */
  lemma HeadBodyApart()
    ensures HEAD !! BODY && REQUIRED !! OPTIONAL
  {
    Apart();
  }

  lemma NoCodeIsARole(o: Outcome)
    ensures "producer_role" !in Codes(o)
  {
    CodeMembers(o);
    Apart();
  }

  lemma JournalMembers(spell: Spelling, f: Family, r: ExecuteRequest, o: Outcome)
    ensures var j := JournalOf(spell, f, r, o);
            && REQUIRED <= j.Keys <= REQUIRED + OPTIONAL
            && (forall n :: n in HEAD ==> j[n] == Head(f, r)[n])
            && (forall n :: n in BODY ==> j[n] == Body(spell, o)[n])
            && Field(j, "producer_role") == (if r.producerRole.Some? then JStr(r.producerRole.value) else JNull)
  {
    HeadKeys(f, r);
    BodyMembers(spell, o);
    CodeMembers(o);
    HeadBodyApart();
    NoCodeIsARole(o);
    Unions(Head(f, r), Body(spell, o), Codes(o), Maybe("producer_role", r.producerRole));
  }

  lemma Unions(a: P.Journal, b: P.Journal, c: P.Journal, d: P.Journal)
    requires a.Keys == HEAD && b.Keys == BODY && HEAD !! BODY && REQUIRED !! OPTIONAL
    requires c.Keys <= OPTIONAL && d.Keys <= {"producer_role"} && "producer_role" !in c
    ensures var j := a + b + c + d;
            && REQUIRED <= j.Keys <= REQUIRED + OPTIONAL
            && (forall n :: n in HEAD ==> j[n] == a[n])
            && (forall n :: n in BODY ==> j[n] == b[n])
            && Field(j, "producer_role") == Field(d, "producer_role")
  {
    assert "producer_role" in OPTIONAL;
  }

  // ----- what execute leaves, observe reports -----

  lemma TokensReadBack(spell: Spelling, tokens: seq<Token>)
    requires Legible(spell) && Reportable(tokens)
    ensures StringsIn(JArr(Strings(TokenStrings(spell, tokens)))) == Some(TokenStrings(spell, tokens))
    ensures TokenStrings(spell, tokens) != [] && "" !in TokenStrings(spell, tokens)
  {
    var strings := TokenStrings(spell, tokens);
    var items := Strings(strings);
    assert |items| == |strings| == |tokens|;
    forall i, k | 0 <= i < k < |items|
      ensures items[i] != items[k]
    {
      assert tokens[i] != tokens[k];
    }
    assert StringsIn(JArr(items)).Some?;
    assert StringsIn(JArr(items)).value == strings;
  }

  /** Outcomes start from the given state, keep its names and report something. */
  ghost predicate Sound(e: Evaluator) {
    forall c: Call, items: seq<Item> :: e(c, items).Some? ==> SoundOutcome(e(c, items).value, items)
  }

  predicate SoundOutcome(o: Outcome, items: seq<Item>) {
    InitialState(items) == Some(o.before) && o.after.Keys == o.before.Keys && Reportable(o.tokens)
  }

  lemma MockIsSound(k: Checks)
    ensures Sound(MockEvaluator(k))
  {
    forall c: Call, items: seq<Item> | MockEvaluator(k)(c, items).Some?
      ensures SoundOutcome(MockEvaluator(k)(c, items).value, items)
    {
      var st := InitialState(items).value;
      MockLedger.PlanKeepsNames(PlanFor(k, c, st), st);
    }
  }

  /** A probe for the same subject, run and vector. */
  predicate Matches(f: Family, r: ExecuteRequest, q: ObserveRequest) {
    && Probes(f, q)
    && q.profileId == r.profileId && q.producerRole == r.producerRole && ObserveScope(q) == ScopeOf(r)
    && q.subjectSha == r.subjectSha && q.harnessSha == r.harnessSha
  }

  predicate Covers(q: ObserveRequest, st: State) { (set n | n in q.requestedStates) == Spelled(st).Keys }

  /** The probe is answered exactly when it asks for all the states in order, and
      then with the outcome's tokens and each state's value before and after. */
  predicate Answers(spell: Spelling, result: Result<Report, ParticipantError>, q: ObserveRequest, o: Outcome) {
    && (result.Ok? <==> Ascending(q.requestedStates) && Covers(q, o.before))
    && (result.Ok? ==>
          && result.value.tokens == TokenStrings(spell, o.tokens)
          && (forall n :: n in q.requestedStates ==> n in Spelled(o.before) && n in Spelled(o.after))
          && result.value.deltas == DeltasOf(q.requestedStates, Spelled(o.before), Spelled(o.after)))
  }

  /** A journal of the closed shape that says what `execute` was asked and what
      came of it. */
  predicate Faithful(spell: Spelling, j: P.Journal, f: Family, r: ExecuteRequest, o: Outcome) {
    && REQUIRED <= j.Keys <= REQUIRED + OPTIONAL
    && j["schema_version"] == JInt(1) && j["participant_protocol"] == JStr(PROTOCOL)
    && j["subject_sha256"] == JStr(r.subjectSha) && j["harness_sha256"] == JStr(r.harnessSha)
    && j["family"] == JStr(SpellFamily(f)) && j["profile_id"] == JStr(r.profileId)
    && P.Names(j, ScopeOf(r))
    && j["counterpart_sha256s"] == JArr([])
    && j["tokens"] == JArr(Strings(TokenStrings(spell, o.tokens)))
    && j["state_before"] == JObj(Spelled(o.before)) && j["state_after"] == JObj(Spelled(o.after))
    && Field(j, "producer_role") == (if r.producerRole.Some? then JStr(r.producerRole.value) else JNull)
  }

  lemma JournalIsFaithful(spell: Spelling, f: Family, r: ExecuteRequest, o: Outcome)
    ensures Faithful(spell, JournalOf(spell, f, r, o), f, r, o)
  {
    JournalMembers(spell, f, r, o);
    HeadMembers(f, r);
    HeadScope(f, r);
    BodyMembers(spell, o);
  }

  /** Reading such a journal is refused only for the list of states that was
      asked for; otherwise it reports the tokens and, for each state, its value
      before and after. */
  lemma FaithfulIsObserved(spell: Spelling, j: P.Journal, f: Family, r: ExecuteRequest, o: Outcome, q: ObserveRequest)
    requires Faithful(spell, j, f, r, o)
    requires Legible(spell) && Matches(f, r, q) && Reportable(o.tokens) && Spelled(o.before).Keys == Spelled(o.after).Keys
    ensures Answers(spell, Observed(f, q, j), q, o)
  {
    TokensReadBack(spell, o.tokens);
    var none := StringsIn(JArr([]));
    assert none.Some? && |none.value| == 0;
    ShapeMeans(j);
    ObservedMeans(f, q, j);
    CoversMeans(q, j);
    if Observed(f, q, j).Ok? {
      ReportMeans(f, q, j);
    }
  }

  lemma SpelledKeys(before: State, after: State)
    requires Canonical(before) && after.Keys == before.Keys
    ensures Canonical(after) && Spelled(before).Keys == Spelled(after).Keys
  {
    SpelledMeans(before);
    SpelledMeans(after);
    assert Spellings(before) == Spellings(after);
  }

  lemma ReadsBack(c: P.Codec, disk: J.Disk, s: P.Scope, j: P.Journal, fault: J.Fault, f: Family, q: ObserveRequest)
    requires P.Lawful(c) && P.Admitted(c, s, j) && J.Fresh(c, disk, s) && Probes(f, q) && ObserveScope(q) == s
    requires fault.point == J.Nowhere || fault.point == J.AtDirectorySync
    ensures ObservedOn(c, J.After(c, disk, s, j, fault), f, q) == Observed(f, q, j)
  {
    J.ReadableExactlyIfRenamed(c, disk, s, j, fault);
  }

  /** A journal that reached its final name is there to be observed. */
  lemma JournaledIsObserved(spell: Spelling, f: Family, r: ExecuteRequest, o: Outcome, q: ObserveRequest, c: P.Codec, disk: J.Disk, fault: J.Fault)
    requires Legible(spell) && SoundOutcome(o, r.work.initialState) && P.Lawful(c) && Matches(f, r, q)
    requires P.ValidValue(JObj(JournalOf(spell, f, r, o))) && c.encode(JournalOf(spell, f, r, o)).Some?
    requires J.Fresh(c, disk, ScopeOf(r))
    requires fault.point == J.Nowhere || fault.point == J.AtDirectorySync
    ensures Answers(spell, ObservedOn(c, J.After(c, disk, ScopeOf(r), JournalOf(spell, f, r, o), fault), f, q), q, o)
  {
    StateNamesAreItemNames(r.work.initialState);
    SpelledKeys(o.before, o.after);
    JournalIsFaithful(spell, f, r, o);
    ReadsBack(c, disk, ScopeOf(r), JournalOf(spell, f, r, o), fault, f, q);
    FaithfulIsObserved(spell, JournalOf(spell, f, r, o), f, r, o, q);
  }

  lemma ExecutedIsSound(e: Evaluator, f: Family, r: ExecuteRequest, o: Outcome)
    requires Sound(e) && Executed(e, f, r) == Ok(o)
    ensures SoundOutcome(o, r.work.initialState)
  {
    assert e(CallOf(r), r.work.initialState) == Some(o);
  }

  /** After an `execute` whose journal reached its final name, `observe` answers
      exactly when it is asked for all the states in order, and then reports each
      state's value before and after the call, and the call's tokens. */
  lemma ExecutedIsObserved(spell: Spelling, e: Evaluator, f: Family, r: ExecuteRequest, o: Outcome, q: ObserveRequest,
                           c: P.Codec, disk: J.Disk, fault: J.Fault)
    requires Legible(spell) && Sound(e) && Executed(e, f, r) == Ok(o) && P.Lawful(c) && Matches(f, r, q)
    requires P.ValidValue(JObj(JournalOf(spell, f, r, o))) && c.encode(JournalOf(spell, f, r, o)).Some?
    requires J.Fresh(c, disk, ScopeOf(r))
    requires fault.point == J.Nowhere || fault.point == J.AtDirectorySync
    ensures InitialState(r.work.initialState) == Some(o.before)
    ensures Answers(spell, ObservedOn(c, J.After(c, disk, ScopeOf(r), JournalOf(spell, f, r, o), fault), f, q), q, o)
  {
    ExecutedIsSound(e, f, r, o);
    JournaledIsObserved(spell, f, r, o, q, c, disk, fault);
  }

  /** The values before are those the case started from. */
  lemma ObservedBeforeIsInitial(items: seq<Item>, names: seq<string>, after: map<string, Json>, i: nat, d: nat)
    requires InitialState(items).Some? && i < |items| && d < |names| && names[d] == items[i].name
    requires forall n :: n in names ==> n in Spelled(InitialState(items).value) && n in after
    ensures DeltasOf(names, Spelled(InitialState(items).value), after)[d].before == items[i].value
  {
    SpelledItems(items, i);
  }
}
