/** Suite runs and the independent verification of their reports. */
module Verdict {
  import opened Collections
  import opened Wrappers
  import opened Observations
  import opened Applicability

  /** The catalog and subject a report is about.  Digests are functions of what
      they are taken of and nothing else is known about them. */
  datatype Context = Context(vectors: map<string, Vector>, subject: Subject,
                             vectorDigest: Vector -> string, counterpartDigest: Counterpart -> string)

  /** Vectors are filed under their own names and well expected. */
  ghost predicate WellFiled(c: Context) {
    forall v :: v in c.vectors ==> c.vectors[v].id == v && WellExpected(c.vectors[v])
  }

  datatype Binding = Binding(runId: string, subjectSha: string, harnessSha: string)

  datatype Status = Pass | Fail | Error

  datatype VectorResult = VectorResult(vectorId: string, vectorSha: string, status: Status, requirementIds: seq<string>,
                                       observationIds: seq<string>, failureToken: Option<string>)

  datatype SuiteVerdict = PassVerdict | FailVerdict | IncompleteVerdict

  datatype Incomplete = ExecutionError | UncoveredFeature | SuiteFixture

  datatype Summary = Summary(verdict: SuiteVerdict, total: nat, passed: nat, failed: nat, errors: nat,
                             notApplicable: nat, reasons: seq<Incomplete>)

  datatype Report = Report(binding: Binding, derivation: Derivation, results: seq<VectorResult>,
                           observations: seq<Observation>, summary: Summary,
                           startedAt: int, finishedAt: int, inventoryAt: int)

  // ----- _summary -----

  function Count(results: seq<VectorResult>, status: Status): nat {
    if results == [] then 0 else
    Count(results[..|results| - 1], status) + if results[|results| - 1].status == status then 1 else 0
  }

  function Summarize(results: seq<VectorResult>, derivation: Derivation, suiteFixture: bool): Summary {
    var errors := Count(results, Error);
    var reasons := (if errors > 0 then [ExecutionError] else []) +
                   (if derivation.uncovered != [] then [UncoveredFeature] else []) +
                   (if suiteFixture then [SuiteFixture] else []);
    Summary(if Count(results, Fail) > 0 then FailVerdict else if reasons != [] then IncompleteVerdict else PassVerdict,
            |results|, Count(results, Pass), Count(results, Fail), errors, |derivation.split.notApplicable|, reasons)
  }

  lemma {:induction false} CountsAddUp(results: seq<VectorResult>)
    ensures Count(results, Pass) + Count(results, Fail) + Count(results, Error) == |results|
  {
    if results != [] {
      CountsAddUp(results[..|results| - 1]);
    }
  }

  lemma {:induction false} CountZero(results: seq<VectorResult>, status: Status)
    ensures Count(results, status) == 0 <==> forall r :: r in results ==> r.status != status
  {
    if results != [] {
      var n := |results| - 1;
      assert results == results[..n] + [results[n]];
      CountZero(results[..n], status);
    }
  }

  lemma {:induction false} CountMeans(results: seq<VectorResult>, status: Status)
    ensures Count(results, status) == |set i | 0 <= i < |results| && results[i].status == status|
  {
    if results != [] {
      var n := |results| - 1;
      CountMeans(results[..n], status);
      var before, all := set i | 0 <= i < n && results[..n][i].status == status,
                         set i | 0 <= i < |results| && results[i].status == status;
      assert all == if results[n].status == status then before + {n} else before;
    }
  }

  /** What a summary says: one failure is enough to fail, one error, uncovered
      feature or fixture to be incomplete, and the counts are the counts. */
  lemma SummaryMeans(results: seq<VectorResult>, derivation: Derivation, suiteFixture: bool)
    ensures var s := Summarize(results, derivation, suiteFixture);
            var failed, broken := exists r :: r in results && r.status == Fail, exists r :: r in results && r.status == Error;
            && (s.verdict == FailVerdict <==> failed)
            && (s.verdict == IncompleteVerdict <==> !failed && (broken || derivation.uncovered != [] || suiteFixture))
            && (ExecutionError in s.reasons <==> broken)
            && (UncoveredFeature in s.reasons <==> derivation.uncovered != [])
            && (SuiteFixture in s.reasons <==> suiteFixture)
            && s.total == |results| && s.notApplicable == |derivation.split.notApplicable|
            && s.passed == |set i | 0 <= i < |results| && results[i].status == Pass|
            && s.failed == |set i | 0 <= i < |results| && results[i].status == Fail|
            && s.errors == |set i | 0 <= i < |results| && results[i].status == Error|
  {
    CountMeans(results, Pass);
    CountMeans(results, Fail);
    CountMeans(results, Error);
    CountZero(results, Fail);
    CountZero(results, Error);
  }

  // ----- one vector of a run -----

  datatype ExecutionFailure = TimedOut | InvalidOutput | OtherFailure

  /** What running adapter and probe on one vector produced. */
  datatype Execution = Failed(failure: ExecutionFailure) | Observed(observation: Observation, schemaValid: bool)

  function ErrorResult(c: Context, vector: Vector, token: string): VectorResult {
    VectorResult(vector.id, c.vectorDigest(vector), Error, vector.requirementIds, [], Some(token))
  }

  function FailureToken(failure: ExecutionFailure): string {
    match failure
    case TimedOut => "timeout"
    case InvalidOutput => "invalid_observation"
    case OtherFailure => "adapter_error"
  }

  function JudgedResult(c: Context, vector: Vector, o: Observation): VectorResult {
    var mismatch := CompareObservation(vector, o);
    VectorResult(vector.id, c.vectorDigest(vector), if mismatch.None? then Pass else Fail, vector.requirementIds, [o.id],
                 if mismatch.None? then None else Some("assertion_failed"))
  }

  predicate Bound(o: Observation, b: Binding) {
    o.runId == b.runId && o.subjectSha == b.subjectSha && o.harnessSha == b.harnessSha
  }

  /** The result of one vector and the observation it keeps. */
  function RunVector(c: Context, b: Binding, vector: Vector, execution: Execution): (VectorResult, Option<Observation>) {
    var digests := RequiredDigests(vector.needs, c.subject, c.counterpartDigest);
    if digests.None? then (ErrorResult(c, vector, "unavailable_probe"), None)
    else match execution
         case Failed(failure) => (ErrorResult(c, vector, FailureToken(failure)), None)
         case Observed(o, valid) =>
           if !valid || !Bound(o, b) || o.counterpartShas != digests.value
           then (ErrorResult(c, vector, "invalid_observation"), None)
           else (JudgedResult(c, vector, o), Some(o))
  }

  /** The probe's output is of this run and subject, and shaped as asked. */
  predicate Trusted(c: Context, b: Binding, vector: Vector, execution: Execution) {
    && execution.Observed? && execution.schemaValid
    && execution.observation.runId == b.runId && execution.observation.subjectSha == b.subjectSha
    && execution.observation.harnessSha == b.harnessSha
    && Some(execution.observation.counterpartShas) == RequiredDigests(vector.needs, c.subject, c.counterpartDigest)
  }

  /** What a result means: an error exactly if nothing can be trusted, otherwise a
      pass exactly if the observation shows what the vector requires. */
  lemma ResultMeans(c: Context, b: Binding, vector: Vector, execution: Execution)
    requires WellExpected(vector)
    ensures var (result, kept) := RunVector(c, b, vector, execution);
            && result.vectorId == vector.id && result.vectorSha == c.vectorDigest(vector)
            && result.requirementIds == vector.requirementIds
            && (result.status == Error <==> !Trusted(c, b, vector, execution))
            && (result.status == Pass <==> Trusted(c, b, vector, execution) && Meets(vector, execution.observation))
            && (result.status == Error ==> result.observationIds == [] && kept.None?)
            && (result.status != Error ==> result.observationIds == [execution.observation.id]
                                           && kept == Some(execution.observation))
            && result.failureToken
               == if result.status == Pass then None
                  else if result.status == Fail then Some("assertion_failed")
                  else if RequiredDigests(vector.needs, c.subject, c.counterpartDigest).None? then Some("unavailable_probe")
                  else if execution == Failed(TimedOut) then Some("timeout")
                  else if execution == Failed(OtherFailure) then Some("adapter_error")
                  else Some("invalid_observation")
  {
    if execution.Observed? {
      PassingMeets(vector, execution.observation);
    }
  }

  /** A run's results and observations after the first `n` vectors. */
  function RunResults(c: Context, b: Binding, ids: seq<string>, executions: seq<Execution>): (r: seq<VectorResult>)
    requires |executions| == |ids| && forall v :: v in ids ==> v in c.vectors
    ensures |r| == |ids|
  {
    seq(|ids|, i requires 0 <= i < |ids| => RunVector(c, b, c.vectors[ids[i]], executions[i]).0)
  }

  function RunObservations(c: Context, b: Binding, ids: seq<string>, executions: seq<Execution>): seq<Observation>
    requires |executions| == |ids| && forall v :: v in ids ==> v in c.vectors
  {
    if ids == [] then [] else
    var n := |ids| - 1;
    RunObservations(c, b, ids[..n], executions[..n]) +
    match RunVector(c, b, c.vectors[ids[n]], executions[n]).1
    case None => []
    case Some(o) => [o]
  }

  /** The body of the loop of `run_suite`. */
  method RunOne(c: Context, b: Binding, vector: Vector, execution: Execution)
    returns (result: VectorResult, kept: Option<Observation>)
    ensures (result, kept) == RunVector(c, b, vector, execution)
  {
    var digests := RequiredCounterpartDigests(vector, c.subject, c.counterpartDigest);
    if digests.None? {
      return ErrorResult(c, vector, "unavailable_probe"), None;
    }
    if execution.Failed? {
      return ErrorResult(c, vector, FailureToken(execution.failure)), None;
    }
    var o := execution.observation;
    if !execution.schemaValid || !Bound(o, b) || o.counterpartShas != digests.value {
      return ErrorResult(c, vector, "invalid_observation"), None;
    }
    return JudgedResult(c, vector, o), Some(o);
  }

  /** The loop of `run_suite` over the applicable vectors. */
  method RunVectors(c: Context, b: Binding, ids: seq<string>, executions: seq<Execution>)
    returns (results: seq<VectorResult>, observations: seq<Observation>)
    requires |executions| == |ids| && forall v :: v in ids ==> v in c.vectors
    ensures results == RunResults(c, b, ids, executions)
    ensures observations == RunObservations(c, b, ids, executions)
  {
    results, observations := [], [];
    for i := 0 to |ids|
      invariant |results| == i && forall k :: 0 <= k < i ==> results[k] == RunVector(c, b, c.vectors[ids[k]], executions[k]).0
      invariant observations == RunObservations(c, b, ids[..i], executions[..i])
    {
      assert ids[..i + 1][..i] == ids[..i] && executions[..i + 1][..i] == executions[..i];
      assert ids[i] in ids;
      var result, kept := RunOne(c, b, c.vectors[ids[i]], executions[i]);
      if kept.Some? {
        observations := observations + [kept.value];
      }
      results := results + [result];
    }
    assert ids[..|ids|] == ids && executions[..|ids|] == executions;
  }

  // ----- verify_report -----

  function ById(observations: seq<Observation>): map<string, Observation> {
    if observations == [] then map[] else
    ById(observations[..|observations| - 1])[observations[|observations| - 1].id := observations[|observations| - 1]]
  }

  function ObservationIds(observations: seq<Observation>): (ids: seq<string>)
    ensures |ids| == |observations|
  {
    seq(|observations|, i requires 0 <= i < |observations| => observations[i].id)
  }

  lemma {:induction false} ByIdFinds(observations: seq<Observation>)
    requires Distinct(ObservationIds(observations))
    ensures forall i :: 0 <= i < |observations| ==>
                          observations[i].id in ById(observations) && ById(observations)[observations[i].id] == observations[i]
    ensures forall id :: id in ById(observations) ==> ById(observations)[id] in observations && ById(observations)[id].id == id
  {
    if observations != [] {
      var n := |observations| - 1;
      var ids := ObservationIds(observations);
      assert ObservationIds(observations[..n]) == ids[..n];
      ByIdFinds(observations[..n]);
      forall i | 0 <= i < n
        ensures observations[i].id != observations[n].id
      {
        assert ids[i] != ids[n];
      }
      assert observations == observations[..n] + [observations[n]];
    }
  }

  /** The verifier's own derivation of a result; None where it raises.  The
      status claimed by an error result is the only claim it takes over. */
  function Recompute(c: Context, observations: map<string, Observation>, result: VectorResult): Option<VectorResult> {
    if result.vectorId !in c.vectors then None else
    var vector := c.vectors[result.vectorId];
    var digests := RequiredDigests(vector.needs, c.subject, c.counterpartDigest);
    if result.vectorSha != c.vectorDigest(vector) || result.requirementIds != vector.requirementIds then None
    else if digests.None? then Some(ErrorResult(c, vector, "unavailable_probe"))
    else if result.status == Error then
      if result.observationIds != [] || result.failureToken.None? then None
      else Some(ErrorResult(c, vector, result.failureToken.value))
    else
    if |result.observationIds| != 1 || result.observationIds[0] !in observations then None
    else
      var o := observations[result.observationIds[0]];
      if o.counterpartShas != digests.value then None else Some(JudgedResult(c, vector, o))
  }

  /** What the verifier accepts as a result: it is of a known vector, as the
      catalog has it, and says what follows from the observation it refers to; only
      an error's token is taken over. */
  lemma RecomputeMeans(c: Context, observations: map<string, Observation>, result: VectorResult)
    requires WellFiled(c)
    ensures Recompute(c, observations, result) == Some(result) <==>
            && result.vectorId in c.vectors
            && var vector := c.vectors[result.vectorId];
            var digests := RequiredDigests(vector.needs, c.subject, c.counterpartDigest);
            && result.vectorSha == c.vectorDigest(vector) && result.requirementIds == vector.requirementIds
            && if digests.None? then
                 result.status == Error && result.observationIds == [] && result.failureToken == Some("unavailable_probe")
               else if result.status == Error then result.observationIds == [] && result.failureToken.Some?
               else
                 && |result.observationIds| == 1 && result.observationIds[0] in observations
                 && var o := observations[result.observationIds[0]];
                 && o.id == result.observationIds[0] && o.counterpartShas == digests.value
                 && (result.status == Pass <==> Meets(vector, o))
                 && result.failureToken == if result.status == Pass then None else Some("assertion_failed")
  {
    if result.vectorId in c.vectors && |result.observationIds| == 1 && result.observationIds[0] in observations {
      PassingMeets(c.vectors[result.vectorId], observations[result.observationIds[0]]);
      assert result.observationIds == [result.observationIds[0]];
    }
  }

  /** The observation ids that the pass and fail results refer to, in order. */
  function Referenced(results: seq<VectorResult>): seq<string> {
    if results == [] then [] else
    var last := results[|results| - 1];
    Referenced(results[..|results| - 1]) + if last.status == Error then [] else last.observationIds
  }

  function ResultIds(results: seq<VectorResult>): (ids: seq<string>)
    ensures |ids| == |results|
  {
    seq(|results|, i requires 0 <= i < |results| => results[i].vectorId)
  }

  predicate Within(r: Report, at: int) { r.startedAt <= at <= r.finishedAt }

  predicate Recomputes(c: Context, observations: map<string, Observation>, result: VectorResult) {
    Recompute(c, observations, result) == Some(result)
  }

  predicate AllRecomputed(c: Context, observations: map<string, Observation>, results: seq<VectorResult>) {
    forall i :: 0 <= i < |results| ==> Recomputes(c, observations, results[i])
  }

  /** Everything `verify_report` demands, given the derivation it makes itself. */
  ghost predicate Verified(c: Context, derivation: Derivation, b: Binding, r: Report) {
    && r.derivation == derivation
    && ResultIds(r.results) == derivation.split.applicable
    && Distinct(ObservationIds(r.observations))
    && AllRecomputed(c, ById(r.observations), r.results)
    && multiset(Referenced(r.results)) == multiset(ObservationIds(r.observations))
    && r.startedAt <= r.inventoryAt <= r.finishedAt
    && (forall i :: 0 <= i < |r.observations| ==>
                      (&& r.observations[i].runId == r.binding.runId
                       && r.observations[i].subjectSha == b.subjectSha && r.observations[i].harnessSha == b.harnessSha
                       && r.startedAt <= r.observations[i].capturedAt <= r.finishedAt))
    && r.summary == Summarize(r.results, derivation, c.subject.suiteFixture)
  }

  /** `derivation` and the digests in `b` are the verifier's own. */
  method VerifyReport(c: Context, derivation: Derivation, b: Binding, r: Report) returns (ok: bool)
    requires forall v :: v in derivation.split.applicable ==> v in c.vectors
    ensures ok <==> Verified(c, derivation, b, r)
  {
    if r.derivation != derivation || ResultIds(r.results) != derivation.split.applicable {
      return false;
    }
    if !Distinct(ObservationIds(r.observations)) {
      return false;
    }
    var same, referenced := RecomputeAll(c, ById(r.observations), r.results);
    if !same || multiset(referenced) != multiset(ObservationIds(r.observations)) {
      return false;
    }
    if r.finishedAt < r.startedAt || !Within(r, r.inventoryAt) {
      return false;
    }
    if exists i :: 0 <= i < |r.observations| &&
                   (!Bound(r.observations[i], Binding(r.binding.runId, b.subjectSha, b.harnessSha)) || !Within(r, r.observations[i].capturedAt)) {
      return false;
    }
    ok := r.summary == Summarize(r.results, derivation, c.subject.suiteFixture);
  }

  lemma RecomputedRefers(c: Context, observations: map<string, Observation>, result: VectorResult)
    requires Recomputes(c, observations, result) && result.status != Error
    ensures |result.observationIds| == 1 && result.observationIds == [result.observationIds[0]]
  {}

  lemma RecomputedStep(c: Context, observations: map<string, Observation>, results: seq<VectorResult>, i: nat)
    requires i < |results| && Recomputes(c, observations, results[i])
    ensures results[i].status != Error ==> |results[i].observationIds| == 1
    ensures Referenced(results[..i + 1])
         == Referenced(results[..i]) + if results[i].status == Error then [] else [results[i].observationIds[0]]
  {
    assert results[..i + 1] == results[..i] + [results[i]];
    ReferencedSnoc(results[..i], results[i]);
    if results[i].status != Error {
      RecomputedRefers(c, observations, results[i]);
    }
  }

  /** The body of the loop of `verify_report`. */
  method RecomputeNext(c: Context, observations: map<string, Observation>, results: seq<VectorResult>, i: nat,
                       referenced: seq<string>)
    returns (ok: bool, more: seq<string>)
    requires i < |results| && referenced == Referenced(results[..i])
    ensures ok <==> Recomputes(c, observations, results[i])
    ensures ok ==> more == Referenced(results[..i + 1])
  {
    var result := results[i];
    ok, more := Recompute(c, observations, result) == Some(result), referenced;
    if ok {
      RecomputedStep(c, observations, results, i);
      if result.status != Error {
        more := referenced + [result.observationIds[0]];
      }
    }
  }

  /** The loop of `verify_report`: every result is recomputed, and what it refers
      to is noted. */
  method RecomputeAll(c: Context, observations: map<string, Observation>, results: seq<VectorResult>)
    returns (same: bool, referenced: seq<string>)
    ensures same <==> AllRecomputed(c, observations, results)
    ensures same ==> referenced == Referenced(results)
  {
    referenced := [];
    for i := 0 to |results|
      invariant forall j :: 0 <= j < i ==> Recomputes(c, observations, results[j])
      invariant referenced == Referenced(results[..i])
    {
      same, referenced := RecomputeNext(c, observations, results, i, referenced);
      if !same {
        return;
      }
    }
    assert results[..|results|] == results;
    same := true;
  }

  // ----- every run's report verifies -----

  lemma {:induction false} RunReferences(c: Context, b: Binding, ids: seq<string>, executions: seq<Execution>)
    requires |executions| == |ids| && forall v :: v in ids ==> v in c.vectors
    ensures Referenced(RunResults(c, b, ids, executions)) == ObservationIds(RunObservations(c, b, ids, executions))
  {
    if ids != [] {
      var n := |ids| - 1;
      RunReferences(c, b, ids[..n], executions[..n]);
      RunSnoc(c, b, ids, executions);
      var (result, o) := RunVector(c, b, c.vectors[ids[n]], executions[n]);
      ReferencedSnoc(RunResults(c, b, ids[..n], executions[..n]), result);
      ObservationIdsConcat(RunObservations(c, b, ids[..n], executions[..n]), if o.Some? then [o.value] else []);
      VectorReferences(c, b, c.vectors[ids[n]], executions[n]);
    }
  }

  lemma RunSnoc(c: Context, b: Binding, ids: seq<string>, executions: seq<Execution>)
    requires ids != [] && |executions| == |ids| && forall v :: v in ids ==> v in c.vectors
    ensures var n := |ids| - 1;
            RunResults(c, b, ids, executions)
            == RunResults(c, b, ids[..n], executions[..n]) + [RunVector(c, b, c.vectors[ids[n]], executions[n]).0]
  {}

  lemma ReferencedSnoc(results: seq<VectorResult>, last: VectorResult)
    ensures Referenced(results + [last]) == Referenced(results) + if last.status == Error then [] else last.observationIds
  {
    assert (results + [last])[..|results|] == results;
  }

  lemma ObservationIdsConcat(a: seq<Observation>, b: seq<Observation>)
    ensures ObservationIds(a + b) == ObservationIds(a) + ObservationIds(b)
  {}

  lemma VectorReferences(c: Context, b: Binding, vector: Vector, execution: Execution)
    ensures var (result, o) := RunVector(c, b, vector, execution);
            ObservationIds(if o.Some? then [o.value] else []) == if result.status == Error then [] else result.observationIds
  {}

  lemma {:induction false} KeptObservations(c: Context, b: Binding, ids: seq<string>, executions: seq<Execution>, i: nat)
    requires |executions| == |ids| && forall v :: v in ids ==> v in c.vectors
    requires i < |ids| && RunVector(c, b, c.vectors[ids[i]], executions[i]).1.Some?
    ensures RunVector(c, b, c.vectors[ids[i]], executions[i]).1.value in RunObservations(c, b, ids, executions)
    decreases |ids|
  {
    var n := |ids| - 1;
    if i < n {
      assert ids[..n][i] == ids[i] && executions[..n][i] == executions[i];
      KeptObservations(c, b, ids[..n], executions[..n], i);
    }
  }

  lemma {:induction false} KeptAreBound(c: Context, b: Binding, ids: seq<string>, executions: seq<Execution>, o: Observation)
    requires |executions| == |ids| && forall v :: v in ids ==> v in c.vectors
    requires o in RunObservations(c, b, ids, executions)
    ensures Bound(o, b)
  {
    var n := |ids| - 1;
    var front := RunObservations(c, b, ids[..n], executions[..n]);
    if o in front {
      KeptAreBound(c, b, ids[..n], executions[..n], o);
    }
  }

  /** The verifier recomputes a run's result from the observation it kept. */
  lemma VectorRecomputes(c: Context, b: Binding, v: string, execution: Execution, observations: map<string, Observation>)
    requires v in c.vectors && c.vectors[v].id == v
    requires var kept := RunVector(c, b, c.vectors[v], execution).1;
             kept.Some? ==> kept.value.id in observations && observations[kept.value.id] == kept.value
    ensures var result := RunVector(c, b, c.vectors[v], execution).0;
            result.vectorId == v && Recompute(c, observations, result) == Some(result)
  {}

  lemma RunRecomputes(c: Context, b: Binding, ids: seq<string>, executions: seq<Execution>, i: nat)
    requires WellFiled(c) && |executions| == |ids| && forall v :: v in ids ==> v in c.vectors
    requires Distinct(ObservationIds(RunObservations(c, b, ids, executions))) && i < |ids|
    ensures var results, observations := RunResults(c, b, ids, executions), RunObservations(c, b, ids, executions);
            results[i].vectorId == ids[i] && Recompute(c, ById(observations), results[i]) == Some(results[i])
  {
    var observations := RunObservations(c, b, ids, executions);
    assert ids[i] in ids;
    var kept := RunVector(c, b, c.vectors[ids[i]], executions[i]).1;
    if kept.Some? {
      KeptObservations(c, b, ids, executions, i);
      KeptIsFound(observations, kept.value);
    }
    VectorRecomputes(c, b, ids[i], executions[i], ById(observations));
  }

  lemma KeptIsFound(observations: seq<Observation>, o: Observation)
    requires Distinct(ObservationIds(observations)) && o in observations
    ensures o.id in ById(observations) && ById(observations)[o.id] == o
  {
    ByIdFinds(observations);
    var k :| 0 <= k < |observations| && observations[k] == o;
  }

  /** The report that `run_suite` assembles. */
  ghost predicate IsRun(c: Context, b: Binding, derivation: Derivation, executions: seq<Execution>, r: Report) {
    && |executions| == |derivation.split.applicable|
    && (forall v :: v in derivation.split.applicable ==> v in c.vectors)
    && r.binding == b && r.derivation == derivation
    && r.results == RunResults(c, b, derivation.split.applicable, executions)
    && r.observations == RunObservations(c, b, derivation.split.applicable, executions)
    && r.summary == Summarize(r.results, derivation, c.subject.suiteFixture)
  }

  predicate InTime(r: Report) {
    && r.startedAt <= r.inventoryAt <= r.finishedAt
    && forall i :: 0 <= i < |r.observations| ==> r.startedAt <= r.observations[i].capturedAt <= r.finishedAt
  }

  lemma RunResultsRecompute(c: Context, b: Binding, derivation: Derivation, executions: seq<Execution>, r: Report)
    requires WellFiled(c) && IsRun(c, b, derivation, executions, r)
    requires Distinct(ObservationIds(r.observations))
    ensures AllRecomputed(c, ById(r.observations), r.results)
    ensures ResultIds(r.results) == derivation.split.applicable
  {
    var ids := derivation.split.applicable;
    forall i | 0 <= i < |ids|
      ensures r.results[i].vectorId == ids[i] && Recompute(c, ById(r.observations), r.results[i]) == Some(r.results[i])
    {
      RunRecomputes(c, b, ids, executions, i);
    }
  }

  lemma RunIsBound(c: Context, b: Binding, derivation: Derivation, executions: seq<Execution>, r: Report)
    requires IsRun(c, b, derivation, executions, r)
    ensures forall i :: 0 <= i < |r.observations| ==> Bound(r.observations[i], b)
  {
    forall i | 0 <= i < |r.observations|
      ensures Bound(r.observations[i], b)
    {
      KeptAreBound(c, b, derivation.split.applicable, executions, r.observations[i]);
    }
  }

  /** Whatever adapters and probes do, a report assembled from a run verifies
      exactly when its observation ids differ and its clock readings fit. */
  lemma RunIsVerified(c: Context, b: Binding, derivation: Derivation, executions: seq<Execution>, r: Report)
    requires WellFiled(c) && IsRun(c, b, derivation, executions, r)
    ensures Verified(c, derivation, b, r) <==> Distinct(ObservationIds(r.observations)) && InTime(r)
  {
    RunReferences(c, b, derivation.split.applicable, executions);
    RunIsBound(c, b, derivation, executions, r);
    if Distinct(ObservationIds(r.observations)) {
      RunResultsRecompute(c, b, derivation, executions, r);
    }
  }

  /** `run_suite` after the inventory: run every applicable vector, assemble the
      report and have it verified. */
  method RunSuite(c: Context, b: Binding, derivation: Derivation, executions: seq<Execution>,
                  startedAt: int, finishedAt: int, inventoryAt: int)
    returns (report: Report, accepted: bool)
    requires WellFiled(c) && |executions| == |derivation.split.applicable|
    requires forall v :: v in derivation.split.applicable ==> v in c.vectors
    ensures IsRun(c, b, derivation, executions, report)
    ensures report.startedAt == startedAt && report.finishedAt == finishedAt && report.inventoryAt == inventoryAt
    ensures accepted <==> Distinct(ObservationIds(report.observations)) && InTime(report)
  {
    var results, observations := RunVectors(c, b, derivation.split.applicable, executions);
    var summary := Summarize(results, derivation, c.subject.suiteFixture);
    report := Report(b, derivation, results, observations, summary, startedAt, finishedAt, inventoryAt);
    accepted := VerifyReport(c, derivation, b, report);
    RunIsVerified(c, b, derivation, executions, report);
  }

  // ----- what an accepted report means -----

  lemma {:induction false} ReferencedAt(results: seq<VectorResult>, i: nat)
    requires i < |results| && results[i].status != Error
    requires forall r :: r in results && r.status != Error ==> |r.observationIds| == 1
    ensures |Referenced(results[..i])| < |Referenced(results)|
    ensures Referenced(results)[|Referenced(results[..i])|] == results[i].observationIds[0]
    decreases |results|
  {
    var n := |results| - 1;
    assert results == results[..n] + [results[n]];
    assert results[n] in results;
    if i < n {
      assert results[..n][..i] == results[..i];
      ReferencedAt(results[..n], i);
    }
  }

  lemma {:induction false} ReferencedGrows(results: seq<VectorResult>, i: nat, j: nat)
    requires i < j <= |results| && results[i].status != Error
    requires forall r :: r in results && r.status != Error ==> |r.observationIds| == 1
    ensures |Referenced(results[..i])| < |Referenced(results[..j])|
  {
    assert results[..j][..i] == results[..i];
    forall r | r in results[..j]
      ensures r in results
    {}
    ReferencedAt(results[..j], i);
  }

  lemma {:induction false} ReferenceOwner(results: seq<VectorResult>, id: string) returns (i: nat)
    requires id in Referenced(results)
    requires forall r :: r in results && r.status != Error ==> |r.observationIds| == 1
    ensures i < |results| && results[i].status != Error && results[i].observationIds == [id]
  {
    var n := |results| - 1;
    assert results == results[..n] + [results[n]];
    assert results[n] in results;
    if id in Referenced(results[..n]) {
      i := ReferenceOwner(results[..n], id);
    } else {
      i := n;
    }
  }

  lemma NonErrorHasOne(c: Context, derivation: Derivation, b: Binding, r: Report, result: VectorResult)
    requires Verified(c, derivation, b, r) && result in r.results && result.status != Error
    ensures |result.observationIds| == 1 && result.observationIds[0] in ById(r.observations)
    ensures result.vectorId in c.vectors
    ensures result == JudgedResult(c, c.vectors[result.vectorId], ById(r.observations)[result.observationIds[0]])
  {
    var i :| 0 <= i < |r.results| && r.results[i] == result;
    assert Recompute(c, ById(r.observations), r.results[i]) == Some(r.results[i]);
  }

  lemma DistinctMultiset(s: seq<string>, t: seq<string>)
    requires multiset(s) == multiset(t) && Distinct(s)
    ensures Distinct(t)
  {
    forall i, j | 0 <= i < j < |t|
      ensures t[i] != t[j]
    {
      assert t == t[..i] + [t[i]] + t[i + 1..j] + [t[j]] + t[j + 1..];
      assert multiset(t)[t[i]] >= if t[i] == t[j] then 2 else 1;
      assert t[i] in multiset(t) && t[i] in multiset(s);
      var k :| 0 <= k < |s| && s[k] == t[i];
      OnlyOnce(s, k);
    }
  }

  lemma OnlyOnce(s: seq<string>, k: nat)
    requires Distinct(s) && k < |s|
    ensures multiset(s)[s[k]] == 1
  {
    assert s == s[..k] + [s[k]] + s[k + 1..];
    assert s[k] !in s[..k] && s[k] !in s[k + 1..];
  }

  /** Different non-error results refer to different observations. */
  lemma ReferencesAreInjective(c: Context, derivation: Derivation, b: Binding, r: Report, i: nat, j: nat)
    requires Verified(c, derivation, b, r) && i < j < |r.results|
    requires r.results[i].status != Error && r.results[j].status != Error
    ensures |r.results[i].observationIds| == 1 && |r.results[j].observationIds| == 1
    ensures r.results[i].observationIds != r.results[j].observationIds
  {
    forall result | result in r.results && result.status != Error
      ensures |result.observationIds| == 1
    {
      NonErrorHasOne(c, derivation, b, r, result);
    }
    assert r.results[i] in r.results && r.results[j] in r.results;
    DistinctMultiset(ObservationIds(r.observations), Referenced(r.results));
    ReferencedAt(r.results, i);
    ReferencedAt(r.results, j);
    ReferencedGrows(r.results, i, j);
  }

  /** Every observation is referred to by a non-error result. */
  lemma ReferencesAreSurjective(c: Context, derivation: Derivation, b: Binding, r: Report, k: nat) returns (i: nat)
    requires Verified(c, derivation, b, r) && k < |r.observations|
    ensures i < |r.results| && r.results[i].status != Error && r.results[i].observationIds == [r.observations[k].id]
  {
    forall result | result in r.results && result.status != Error
      ensures |result.observationIds| == 1
    {
      NonErrorHasOne(c, derivation, b, r, result);
    }
    assert ObservationIds(r.observations)[k] in multiset(ObservationIds(r.observations));
    assert r.observations[k].id in multiset(Referenced(r.results));
    i := ReferenceOwner(r.results, r.observations[k].id);
  }

  /** Result number i passed on an observation of its own. */
  ghost predicate PassedOn(c: Context, r: Report, i: nat, k: nat)
    requires i < |r.results| && k < |r.observations|
  {
    && r.results[i].vectorId in c.vectors
    && r.results[i].status == Pass
    && r.results[i].observationIds == [r.observations[k].id]
    && Meets(c.vectors[r.results[i].vectorId], r.observations[k])
  }

  lemma PassedResult(c: Context, derivation: Derivation, b: Binding, r: Report, i: nat) returns (k: nat)
    requires WellFiled(c) && Verified(c, derivation, b, r) && i < |r.results| && r.results[i].status == Pass
    ensures k < |r.observations| && PassedOn(c, r, i, k)
  {
    var result := r.results[i];
    assert result in r.results;
    NonErrorHasOne(c, derivation, b, r, result);
    ByIdFinds(r.observations);
    var o := ById(r.observations)[result.observationIds[0]];
    k :| 0 <= k < |r.observations| && r.observations[k] == o;
    PassingMeets(c.vectors[result.vectorId], o);
    assert result.observationIds == [o.id];
  }

  ghost predicate Passed(c: Context, r: Report, i: nat)
    requires i < |r.results|
  {
    exists k :: 0 <= k < |r.observations| && PassedOn(c, r, i, k)
  }

  lemma {:induction false} PassVerdictCounts(results: seq<VectorResult>, derivation: Derivation, suiteFixture: bool)
    requires Summarize(results, derivation, suiteFixture).verdict == PassVerdict
    ensures forall r :: r in results ==> r.status == Pass
    ensures derivation.uncovered == [] && !suiteFixture
    ensures Count(results, Pass) == |results|
  {
    CountsAddUp(results);
    CountZero(results, Fail);
    CountZero(results, Error);
  }

  /** A verified pass: every applicable vector, in order, passed on an observation
      that shows exactly what it requires, there are no other observations,
      nothing selected is uncovered and the subject is no fixture. */
  lemma PassVerdictMeans(c: Context, derivation: Derivation, b: Binding, r: Report)
    requires WellFiled(c) && Verified(c, derivation, b, r) && r.summary.verdict == PassVerdict
    ensures ResultIds(r.results) == derivation.split.applicable && |r.results| == |r.observations|
    ensures forall i :: 0 <= i < |r.results| ==> Passed(c, r, i)
    ensures derivation.uncovered == [] && !c.subject.suiteFixture
    ensures r.summary.passed == r.summary.total == |derivation.split.applicable|
  {
    PassVerdictCounts(r.results, derivation, c.subject.suiteFixture);
    forall i | 0 <= i < |r.results|
      ensures Passed(c, r, i)
    {
      assert r.results[i] in r.results;
      var k := PassedResult(c, derivation, b, r, i);
    }
    forall result | result in r.results
      ensures |result.observationIds| == 1
    {
      NonErrorHasOne(c, derivation, b, r, result);
    }
    AllReferenced(r.results);
    assert |multiset(Referenced(r.results))| == |multiset(ObservationIds(r.observations))|;
  }

  /** In terms of the matrix: every vector of the profile that applies to the
      subject has passed, in exactly one place. */
  lemma PassCoversProfile(m: Matrix, s: Selection, c: Context, derivation: Derivation, b: Binding, r: Report, v: string)
    returns (i: nat)
    requires Checked(m) && s.profile in m.profiles && Derives(m, s, derivation)
    requires WellFiled(c) && Verified(c, derivation, b, r) && r.summary.verdict == PassVerdict
    requires v in m.vectors && m.vectors[v].profile == s.profile && Applies(m, s, v)
    ensures i < |r.results| && r.results[i].vectorId == v && Passed(c, r, i)
    ensures forall j :: 0 <= j < |r.results| && r.results[j].vectorId == v ==> j == i
  {
    SplitDividesProfile(m, s, v);
    ApplicableDistinct(m, s, |m.profiles[s.profile]|);
    PassVerdictMeans(c, derivation, b, r);
    var ids := derivation.split.applicable;
    i :| 0 <= i < |ids| && ids[i] == v;
    assert forall j :: 0 <= j < |r.results| ==> ResultIds(r.results)[j] == r.results[j].vectorId;
  }

  lemma {:induction false} AllReferenced(results: seq<VectorResult>)
    requires forall r :: r in results ==> r.status != Error && |r.observationIds| == 1
    ensures |Referenced(results)| == |results|
  {
    if results != [] {
      var n := |results| - 1;
      assert results == results[..n] + [results[n]];
      assert results[n] in results;
      AllReferenced(results[..n]);
    }
  }
}
