/** The operations of `operations.py` and `pipeline.py` as the program runs them, on a store and an
    index updated in place. Every method is proved against the step function it is named after. */
module Service {
  import opened Wrappers
  import opened Contracts
  import opened VersionedIndex
  import opened Gate
  import opened Operations
  import opened Gateway
  import SqliteIndexer

  // ---------------------------------------------------------------- reading logs

  /** The loop of `get_status`. */
  method ReadProgress(events: seq<Event>) returns (at: Progress)
    ensures at == Fold(events)
  {
    var state, requestId, policy, outcome := PREPARED, None, None, None;
    for i := 0 to |events|
      invariant Progress(state, requestId, policy, outcome) == Fold(events[..i])
    {
      assert events[..i + 1][..i] == events[..i];
      match events[i].payload {
        case AnalysisRequested(request) =>
          requestId := Some(request.requestId);
          state := ANALYSIS_REQUESTED;
        case DispatchFailed(_) =>
          state := ANALYSIS_FAILED;
        case IndexGateApplied(applied) =>
          outcome := Some(applied);
          state := StateForOutcome(applied, policy);
        case SubmissionApplied(submission, applied) =>
          policy := Some(submission.policy);
          outcome := Some(applied);
          state := StateForOutcome(applied, policy);
        case CommandCompleted(command, _, _) =>
          if command.action == Hold {
            state := ON_HOLD;
          } else if command.action == Reanalyze {
            state := SUPERSEDED;
          }
        case AnalysisSuperseded(_) =>
          state := SUPERSEDED;
        case _ =>
      }
    }
    assert events[..|events|] == events;
    at := Progress(state, requestId, policy, outcome);
  }

  predicate IsReceived(payload: Payload, requestId: string) {
    payload.SubmissionReceived? && payload.submission.requestId == requestId
  }

  predicate IsCompleted(payload: Payload, key: string) {
    payload.CommandCompleted? && payload.command.idempotencyKey == key
  }

  /** `_latest_request`, searching from the end. */
  method FindRequest(events: seq<Event>) returns (request: Option<RiskRequest>)
    ensures request == LatestRequest(events)
    ensures request.None? <==> forall j | 0 <= j < |events| :: !events[j].payload.AnalysisRequested?
    ensures request.Some? ==>
              exists i :: 0 <= i < |events| && events[i].payload == AnalysisRequested(request.value)
                && forall j | i < j < |events| :: !events[j].payload.AnalysisRequested?
  {
    assert events[..|events|] == events;
    for i := |events| downto 0
      invariant LatestRequest(events) == LatestRequest(events[..i])
      invariant forall j | i <= j < |events| :: !events[j].payload.AnalysisRequested?
    {
      assert events[..i + 1][..i] == events[..i];
      if events[i].payload.AnalysisRequested? {
        return Some(events[i].payload.request);
      }
    }
    return None;
  }

  /** `_received_submission`. */
  method FindSubmission(events: seq<Event>, requestId: string) returns (submission: Option<PolicySubmission>)
    ensures submission == ReceivedSubmission(events, requestId)
    ensures submission.None? <==> forall j | 0 <= j < |events| :: !IsReceived(events[j].payload, requestId)
    ensures submission.Some? ==>
              exists i :: 0 <= i < |events| && events[i].payload == SubmissionReceived(submission.value)
                && forall j | i < j < |events| :: !IsReceived(events[j].payload, requestId)
  {
    assert events[..|events|] == events;
    for i := |events| downto 0
      invariant ReceivedSubmission(events, requestId) == ReceivedSubmission(events[..i], requestId)
      invariant forall j | i <= j < |events| :: !IsReceived(events[j].payload, requestId)
    {
      assert events[..i + 1][..i] == events[..i];
      var payload := events[i].payload;
      if IsReceived(payload, requestId) {
        return Some(payload.submission);
      }
    }
    return None;
  }

  /** `_applied_submission`. */
  method IsApplied(events: seq<Event>, requestId: string) returns (applied: bool)
    ensures applied <==> AppliedSubmission(events, requestId)
  {
    for i := 0 to |events|
      invariant forall j | 0 <= j < i ::
                  !(events[j].payload.SubmissionApplied? && events[j].payload.submission.requestId == requestId)
    {
      if events[i].payload.SubmissionApplied? && events[i].payload.submission.requestId == requestId {
        return true;
      }
    }
    return false;
  }

  /** `_latest_applied_policy`. */
  method FindPolicy(events: seq<Event>) returns (policy: Option<PolicyResult>)
    ensures policy == LatestAppliedPolicy(events)
    ensures policy.None? <==> forall j | 0 <= j < |events| :: !events[j].payload.SubmissionApplied?
    ensures policy.Some? ==>
              exists i :: 0 <= i < |events| && events[i].payload.SubmissionApplied? && events[i].payload.submission.policy == policy.value
                && forall j | i < j < |events| :: !events[j].payload.SubmissionApplied?
  {
    assert events[..|events|] == events;
    for i := |events| downto 0
      invariant LatestAppliedPolicy(events) == LatestAppliedPolicy(events[..i])
      invariant forall j | i <= j < |events| :: !events[j].payload.SubmissionApplied?
    {
      assert events[..i + 1][..i] == events[..i];
      if events[i].payload.SubmissionApplied? {
        return Some(events[i].payload.submission.policy);
      }
    }
    return None;
  }

  /** `_completed_command`. */
  method FindCompleted(events: seq<Event>, key: string) returns (saved: Option<Payload>)
    ensures saved == CompletedCommand(events, key)
    ensures saved.None? <==> forall j | 0 <= j < |events| :: !IsCompleted(events[j].payload, key)
    ensures saved.Some? ==>
              exists i :: 0 <= i < |events| && events[i].payload == saved.value
                && forall j | i < j < |events| :: !IsCompleted(events[j].payload, key)
  {
    assert events[..|events|] == events;
    for i := |events| downto 0
      invariant CompletedCommand(events, key) == CompletedCommand(events[..i], key)
      invariant forall j | i <= j < |events| :: !IsCompleted(events[j].payload, key)
    {
      assert events[..i + 1][..i] == events[..i];
      var payload := events[i].payload;
      if IsCompleted(payload, key) {
        return Some(payload);
      }
    }
    return None;
  }

  // ---------------------------------------------------------------- the operations

  class AnalysisOperations {
    const gate: IndexGate
    const audit: AuditStore
    const indexer: SqliteIndexer.Indexer

    constructor (gate: IndexGate)
      requires gate.Valid()
      ensures this.gate == gate && Valid()
    {
      this.gate, audit, indexer := gate, gate.audit, gate.indexer;
    }

    ghost predicate Valid()
      reads this, gate, indexer
    {
      gate.audit == audit && gate.indexer == indexer && gate.Valid()
    }

    ghost function State(): World
      requires Valid()
      reads this, gate, audit, indexer
    {
      gate.State()
    }

    /** `get_status`. */
    method GetStatus(id: string) returns (status: Result<AnalysisStatusView, Failure>)
      requires Valid()
      ensures status == if id in audit.records then Ok(StatusOf(State(), id)) else Err(NotFound)
    {
      if id !in audit.records {
        return Err(NotFound);
      }
      var known := KnownStatus(id);
      return Ok(known);
    }

    method KnownStatus(id: string) returns (status: AnalysisStatusView)
      requires Valid() && id in audit.records
      ensures status == StatusOf(State(), id)
    {
      var p := audit.records[id].prepared;
      var at := ReadProgress(audit.records[id].events);
      var chainValid := audit.VerifyKnown(id);
      status := AnalysisStatusView(
        p.analysisId, p.documentId, p.version, p.attempt, at.state, p.candidate.sha256, p.changedBy, p.preparedAt,
        at.requestId, at.policy, at.outcome, AllowedCommands(at.state, at.policy), chainValid, p.supersedes);
    }

    /** `ensure_request`. */
    method EnsureRequest(id: string, token: string) returns (request: Result<RiskRequest, Failure>)
      requires Valid()
      modifies audit, indexer
      ensures Valid()
      ensures var w := old(State());
              if id !in w.records then State() == w && request == Err(NotFound)
              else request.Ok? && (State(), request.value) == Operations.EnsureRequest(w, id, token)
    {
      if id !in audit.records {
        return Err(NotFound);
      }
      var known := KnownRequest(id, token);
      return Ok(known);
    }

    method KnownRequest(id: string, token: string) returns (request: RiskRequest)
      requires Valid() && id in audit.records
      modifies audit, indexer
      ensures Valid() && (State(), request) == Operations.EnsureRequest(old(State()), id, token)
    {
      var existing := FindRequest(audit.records[id].events);
      if existing.Some? {
        return existing.value;
      }
      request := RequestFor(audit.records[id].prepared, token);
      audit.AppendKnown(id, AnalysisRequested(request));
    }

    /** `prepare_streams`. The candidate's bytes were staged, so they are found. */
    method Prepare(document: string, baseline: Upload, candidate: Upload, changedBy: string, token: string)
      returns (result: Result<PreparedAnalysis, Failure>)
      requires Valid() && "anl_" + token !in audit.records && IsOf(baseline, document) && IsOf(candidate, document)
      modifies audit, indexer
      ensures Valid()
      ensures result.Ok? <==> CanPrepare(CurrentOf(old(State()).index, document), baseline, candidate)
      ensures result.Err? ==> State() == old(State())
      ensures var w, failure := old(State()), UploadFailure(CurrentOf(old(State()).index, document), baseline, candidate);
              if failure.Some? then State() == w && result == Err(failure.value)
              else
                exists version :: IsNextVersion(w, document, version)
                  && (State(), result)
                     == PrepareStep(w, baseline.snapshot.value, candidate.snapshot.value, changedBy, version, token)
    {
      var current := indexer.GetCurrent(document);
      var failure := UploadFailure(current, baseline, candidate);
      if failure.Some? {
        return Err(failure.value);
      }
      var p := Allocate(baseline.snapshot.value, candidate.snapshot.value, current, changedBy, token);
      ghost var before := State();
      var recorded := audit.RecordPrepared(p, Content(p.candidate.sha256));
      assert State() == Operations.RecordPrepared(before, p);
      var _ := KnownRequest(p.analysisId, token);
      assert (State(), Ok(p))
          == PrepareStep(before, baseline.snapshot.value, candidate.snapshot.value, changedBy, p.version, token);
      return Ok(p);
    }

    /** The analysis as it is put together, with the version allocated for it. */
    method Allocate(baseline: Snapshot, candidate: Snapshot, current: Option<string>, changedBy: string, token: string)
      returns (p: PreparedAnalysis)
      requires Valid() && current == CurrentOf(State().index, candidate.documentId)
      ensures IsNextVersion(State(), candidate.documentId, p.version)
      ensures p == NewAnalysis(State(), baseline, candidate, changedBy, p.version, token)
    {
      var document := candidate.documentId;
      var version := audit.NextDocumentVersion(document);
      if version > 1 {
        var id :| id in audit.records && IsOriginal(audit.records[id].prepared, document)
                  && audit.records[id].prepared.version == version - 1;
        assert IsVersionOf(State(), document, version - 1);
      }
      p := PreparedAnalysis(
        "anl_" + token, document, baseline, candidate, DiffReport(baseline.sha256, candidate.sha256),
        current, version, changedBy, audit.clock, 1, None);
    }

    /** The part of `submit_policy_result` that applies an accepted result. */
    method AcceptResult(id: string, submission: PolicySubmission, prior: Option<PolicySubmission>, env: Surroundings)
      requires Valid() && id in audit.records
      requires prior == ReceivedSubmission(audit.records[id].events, submission.requestId)
      modifies audit, indexer
      ensures Valid() && State() == Operations.AcceptResult(old(State()), id, submission, env)
    {
      ghost var before := State();
      var p := audit.records[id].prepared;
      if prior.None? {
        audit.AppendKnown(id, SubmissionReceived(submission));
      }
      ghost var received := State();
      var outcome := gate.Apply(p, submission.policy, false, env);
      ghost var gated := GateStep(State(), outcome);
      audit.AppendKnown(id, SubmissionApplied(submission, outcome.value));
      AcceptedResult(before, id, submission, env, received, gated);
    }

    /** `submit_policy_result`. */
    method Submit(id: string, submission: PolicySubmission, token: string, env: Surroundings)
      returns (result: Result<AnalysisStatusView, Failure>)
      requires Valid()
      modifies audit, indexer
      ensures Valid() && (State(), result) == SubmitStep(old(State()), id, submission, token, env)
    {
      if id !in audit.records {
        return Err(NotFound);
      }
      var p := audit.records[id].prepared;
      var at := ReadProgress(audit.records[id].events);
      if at.state == SUPERSEDED {
        return Err(Conflict("superseded"));
      }
      var request := KnownRequest(id, token);
      if request.requestId != submission.requestId {
        return Err(Conflict("stale request"));
      }
      if request.analysisId != id {
        return Err(Conflict("foreign request"));
      }
      if submission.policy.candidateSha256 != Some(p.candidate.sha256) {
        return Err(Conflict("candidate"));
      }
      var prior := FindSubmission(audit.records[id].events, request.requestId);
      if prior.Some? && prior.value != submission {
        return Err(Conflict("different result"));
      }
      var applied := IsApplied(audit.records[id].events, request.requestId);
      if !applied {
        AcceptResult(id, submission, prior, env);
      }
      var status := KnownStatus(id);
      return Ok(status);
    }

    /** `dispatch`. */
    method Dispatch(id: string, answer: Option<PolicySubmission>, token: string, env: Surroundings)
      returns (result: Result<AnalysisStatusView, Failure>)
      requires Valid()
      modifies audit, indexer
      ensures Valid() && (State(), result) == DispatchStep(old(State()), id, answer, token, env)
    {
      if id !in audit.records {
        return Err(NotFound);
      }
      var request := KnownRequest(id, token);
      ghost var requested := State();
      audit.AppendKnown(id, DispatchStarted(request.requestId));
      ghost var started := State();
      assert started == Log(requested, id, DispatchStarted(request.requestId));
      if answer.None? {
        audit.AppendKnown(id, DispatchFailed(request.requestId));
        assert State() == Log(started, id, DispatchFailed(request.requestId));
        return Err(ExternalService);
      }
      result := Submit(id, answer.value, token, env);
    }

    /** `_create_reanalysis`: refused if the candidate's bytes are no longer found. */
    method CreateReanalysis(p: PreparedAnalysis, token: string, blob: Blob) returns (result: Result<string, Failure>)
      requires Valid() && "anl_" + token !in audit.records
      modifies audit, indexer
      ensures Valid() && result == if blob != Content(p.candidate.sha256) then Err(Integrity) else Ok("anl_" + token)
      ensures State() == if result.Err? then old(State()) else ReanalysisStep(old(State()), p, token)
    {
      var replacementId := "anl_" + token;
      var replacement := p.(analysisId := replacementId, attempt := p.attempt + 1, supersedes := Some(p.analysisId),
                            preparedAt := audit.clock);
      ghost var before := State();
      var recording := audit.RecordPrepared(replacement, blob);
      if recording.Err? {
        return Err(recording.error);
      }
      ghost var recorded := State();
      assert recorded == Operations.RecordPrepared(before, replacement);
      if p.analysisId in audit.records {
        audit.AppendKnown(p.analysisId, AnalysisSuperseded(replacementId));
      }
      assert State() == LogIfKnown(recorded, p.analysisId, AnalysisSuperseded(replacementId));
      var _ := KnownRequest(replacementId, token);
      return Ok(replacementId);
    }

    /** The end of `execute_command`: record the command and report, unless that write raises. */
    method Finish(id: string, command: OperatorCommand, outcome: IndexOutcome, replacement: Option<string>, env: Surroundings)
      returns (result: Result<OperatorCommandResult, Failure>)
      requires Valid() && id in audit.records
      modifies audit, indexer
      ensures Valid() && (State(), result) == Operations.Finish(old(State()), id, command, outcome, replacement, env)
    {
      if env.completionFault {
        return Err(AuditWrite);
      }
      audit.AppendKnown(id, CommandCompleted(command, Some(outcome), replacement));
      var status := KnownStatus(id);
      return Ok(OperatorCommandResult(command, status, Some(outcome), replacement, false));
    }

    /** The three actions of `execute_command`, once the command is neither refused nor replayed. */
    method Perform(id: string, command: OperatorCommand, token: string, env: Surroundings)
      returns (result: Result<OperatorCommandResult, Failure>)
      requires Valid() && id in audit.records && "anl_" + token !in audit.records
      modifies audit, indexer
      ensures Valid() && (State(), result) == PerformStep(old(State()), id, command, token, env)
    {
      var p := audit.records[id].prepared;
      match command.action {
        case Approve =>
          var policy := FindPolicy(audit.records[id].events);
          if policy.None? || policy.value.decision != ALLOW || policy.value.indexAction != INDEX {
            return Err(Conflict("no approval"));
          }
          var outcome := gate.Apply(p, policy.value, true, env);
          if outcome.None? {
            return Err(AuditWrite);
          }
          result := Finish(id, command, outcome.value, None, env);
        case Hold =>
          var outcome := gate.Hold(p, "OPERATOR_HOLD", env);
          result := Finish(id, command, outcome, None, env);
        case Reanalyze =>
          var outcome := gate.Hold(p, "OPERATOR_REANALYZE_HOLD", env);
          var created := CreateReanalysis(p, token, env.blob);
          if created.Err? {
            return Err(created.error);
          }
          result := Finish(id, command, outcome, Some(created.value), env);
      }
    }

    /** `execute_command`. */
    method Execute(id: string, command: OperatorCommand, token: string, env: Surroundings)
      returns (result: Result<OperatorCommandResult, Failure>)
      requires Valid() && "anl_" + token !in audit.records
      modifies audit, indexer
      ensures Valid() && (State(), result) == ExecuteStep(old(State()), id, command, token, env)
    {
      if id !in audit.records {
        return Err(NotFound);
      }
      var p, events := audit.records[id].prepared, audit.records[id].events;
      if command.expectedCandidateSha256 != p.candidate.sha256 {
        return Err(Conflict("candidate"));
      }
      var replay := FindCompleted(events, command.idempotencyKey);
      if replay.Some? {
        if replay.value.command != command {
          return Err(Conflict("idempotency key"));
        }
        var status := KnownStatus(id);
        return Ok(OperatorCommandResult(command, status, replay.value.commandOutcome, replay.value.replacementId, true));
      }
      var at := ReadProgress(events);
      if command.action !in AllowedCommands(at.state, at.policy) {
        return Err(Conflict("not allowed"));
      }
      result := Perform(id, command, token, env);
    }
  }

  lemma AcceptedResult(w: World, id: string, submission: PolicySubmission, env: Surroundings, received: World, step: GateStep)
    requires id in w.records
    requires received == if ReceivedSubmission(w.records[id].events, submission.requestId).None?
                         then Log(w, id, SubmissionReceived(submission)) else w
    requires step == ApplyStep(received, w.records[id].prepared, submission.policy, false, env)
    ensures step.outcome.Some? && id in step.world.records
    ensures Operations.AcceptResult(w, id, submission, env)
         == Log(step.world, id, SubmissionApplied(submission, step.outcome.value))
  {
  }
}
