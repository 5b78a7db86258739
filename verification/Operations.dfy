/** The audited workflow of `operations.py` and `pipeline.py`, as steps on the gateway's state.
    The status of an analysis is never stored: it is a fold over its log. */
module Operations {
  import opened Wrappers
  import opened Contracts
  import opened AuditChain
  import opened VersionedIndex
  import opened Gate

  // ---------------------------------------------------------------- reading the log

  /** What `get_status` derives from the log. */
  datatype Progress = Progress(
    state: WorkflowState, requestId: Option<string>, policy: Option<PolicyResult>, outcome: Option<IndexOutcome>)

  const START := Progress(PREPARED, None, None, None)

  function StateForOutcome(outcome: IndexOutcome, policy: Option<PolicyResult>): WorkflowState {
    if outcome.action == INDEX && outcome.indexed then INDEXED
    else if outcome.action == QUARANTINE then QUARANTINED
    else if policy.Some? && policy.value.decision == ALLOW then AWAITING_APPROVAL
    else ON_HOLD
  }

  /** One turn of the loop in `get_status`. */
  function Advance(at: Progress, payload: Payload): Progress {
    match payload
    case AnalysisRequested(request) => at.(requestId := Some(request.requestId), state := ANALYSIS_REQUESTED)
    case DispatchFailed(_) => at.(state := ANALYSIS_FAILED)
    case IndexGateApplied(outcome) =>
      at.(outcome := Some(outcome), state := StateForOutcome(outcome, at.policy))
    case SubmissionApplied(submission, outcome) =>
      Progress(StateForOutcome(outcome, Some(submission.policy)), at.requestId, Some(submission.policy), Some(outcome))
    case CommandCompleted(command, _, _) =>
      if command.action == Hold then at.(state := ON_HOLD)
      else if command.action == Reanalyze then at.(state := SUPERSEDED)
      else at
    case AnalysisSuperseded(_) => at.(state := SUPERSEDED)
    case _ => at
  }

  function Fold(events: seq<Event>): Progress {
    if events == [] then START
    else Advance(Fold(events[..|events| - 1]), events[|events| - 1].payload)
  }

  function AllowedCommands(state: WorkflowState, policy: Option<PolicyResult>): seq<OperatorAction> {
    if state == SUPERSEDED then []
    else if state == QUARANTINED then [Reanalyze]
    else
      (if policy.Some? && policy.value.decision == ALLOW && (state == AWAITING_APPROVAL || state == ON_HOLD)
       then [Approve] else [])
      + (if state != ON_HOLD then [Hold] else [])
      + [Reanalyze]
  }

  function LatestRequest(events: seq<Event>): Option<RiskRequest> {
    if events == [] then None
    else
      var last := events[|events| - 1].payload;
      if last.AnalysisRequested? then Some(last.request) else LatestRequest(events[..|events| - 1])
  }

  function ReceivedSubmission(events: seq<Event>, requestId: string): Option<PolicySubmission> {
    if events == [] then None
    else
      var last := events[|events| - 1].payload;
      if last.SubmissionReceived? && last.submission.requestId == requestId then Some(last.submission)
      else ReceivedSubmission(events[..|events| - 1], requestId)
  }

  predicate AppliedSubmission(events: seq<Event>, requestId: string) {
    exists i :: 0 <= i < |events| && events[i].payload.SubmissionApplied?
                && events[i].payload.submission.requestId == requestId
  }

  function LatestAppliedPolicy(events: seq<Event>): Option<PolicyResult> {
    if events == [] then None
    else
      var last := events[|events| - 1].payload;
      if last.SubmissionApplied? then Some(last.submission.policy) else LatestAppliedPolicy(events[..|events| - 1])
  }

  /** The last completed command under an idempotency key. */
  function CompletedCommand(events: seq<Event>, key: string): (saved: Option<Payload>)
    ensures saved.Some? ==> saved.value.CommandCompleted? && saved.value.command.idempotencyKey == key
  {
    if events == [] then None
    else
      var last := events[|events| - 1].payload;
      if last.CommandCompleted? && last.command.idempotencyKey == key then Some(last)
      else CompletedCommand(events[..|events| - 1], key)
  }

  ghost function StatusOf(w: World, id: string): AnalysisStatusView
    requires id in w.records
  {
    var p, at := w.records[id].prepared, Fold(w.records[id].events);
    AnalysisStatusView(
      p.analysisId, p.documentId, p.version, p.attempt, at.state, p.candidate.sha256, p.changedBy, p.preparedAt,
      at.requestId, at.policy, at.outcome, AllowedCommands(at.state, at.policy), ChainValid(w, id), p.supersedes)
  }

  // ---------------------------------------------------------------- the operations

  datatype Failure =
    NotFound | Conflict(why: string) | Integrity | FormatMismatch | MalformedDocument | ExternalService | AuditWrite

  function RequestFor(p: PreparedAnalysis, token: string): RiskRequest {
    RiskRequest("req_" + token, p.analysisId, p.documentId, p.version, p.attempt, p.changedBy,
                p.baseline.sha256, p.candidate.sha256, p.baseline.text, p.candidate.text, p.diff)
  }

  /** `ensure_request`: one request for each analysis. */
  function EnsureRequest(w: World, id: string, token: string): (r: (World, RiskRequest))
    requires id in w.records
    ensures r.0.records.Keys == w.records.Keys && r.0.index == w.index && r.0.config == w.config
  {
    var existing := LatestRequest(w.records[id].events);
    if existing.Some? then (w, existing.value)
    else
      var request := RequestFor(w.records[id].prepared, token);
      (Log(w, id, AnalysisRequested(request)), request)
  }

  ghost predicate IsVersionOf(w: World, document: string, version: nat) {
    exists id :: id in w.records && IsOriginal(w.records[id].prepared, document) && w.records[id].prepared.version == version
  }

  predicate IsOriginal(p: PreparedAnalysis, document: string) {
    p.documentId == document && p.supersedes.None?
  }

  /** `next_document_version`: one more than the highest version of an original analysis. */
  ghost predicate IsNextVersion(w: World, document: string, version: nat) {
    && version >= 1
    && (version > 1 ==> IsVersionOf(w, document, version - 1))
    && forall id | id in w.records && IsOriginal(w.records[id].prepared, document) ::
         w.records[id].prepared.version < version
  }

  /** `record_prepared_analysis` for an identifier not used before. */
  function RecordPrepared(w: World, p: PreparedAnalysis): World
    requires p.analysisId !in w.records
  {
    var genesis := Append(w.config.hash, p.analysisId, [], AnalysisPrepared(p), w.clock);
    w.(records := w.records[p.analysisId := Record(p, genesis)], clock := w.clock + 1)
  }

  function NewAnalysis(w: World, baseline: Snapshot, candidate: Snapshot, changedBy: string, version: nat, token: string): PreparedAnalysis
  {
    PreparedAnalysis(
      "anl_" + token, candidate.documentId, baseline, candidate, DiffReport(baseline.sha256, candidate.sha256),
      CurrentOf(w.index, candidate.documentId), version, changedBy, w.clock, 1, None)
  }

  /** `prepare_streams` on the two snapshots extracted for one document. */
  function PrepareStep(w: World, baseline: Snapshot, candidate: Snapshot, changedBy: string, version: nat, token: string)
    : (World, Result<PreparedAnalysis, Failure>)
    requires "anl_" + token !in w.records
  {
    var current := CurrentOf(w.index, candidate.documentId);
    if current.Some? && current.value != baseline.sha256 then (w, Err(Integrity))
    else
      var p := NewAnalysis(w, baseline, candidate, changedBy, version, token);
      (EnsureRequest(RecordPrepared(w, p), p.analysisId, token).0, Ok(p))
  }

  /** An uploaded stream: its digest, its format if one is detected, and what extraction makes of it. */
  datatype Upload = Upload(sha256: string, format: Option<string>, snapshot: Option<Snapshot>)

  /** Extraction keeps the digest and takes the document it is told. */
  predicate IsOf(upload: Upload, document: string) {
    upload.snapshot.Some? ==> upload.snapshot.value.sha256 == upload.sha256 && upload.snapshot.value.documentId == document
  }

  /** Two uploads can be prepared: the baseline is what is current, if anything is; both are of one format that
      is known, and both can be extracted. */
  predicate CanPrepare(current: Option<string>, baseline: Upload, candidate: Upload) {
    && (current.Some? ==> current == Some(baseline.sha256))
    && baseline.format.Some? && candidate.format == baseline.format
    && baseline.snapshot.Some? && candidate.snapshot.Some?
  }

  /** Why two uploads cannot be prepared: the checks in front of the snapshots, in their order. */
  function UploadFailure(current: Option<string>, baseline: Upload, candidate: Upload): (failure: Option<Failure>)
    ensures failure.None? <==> CanPrepare(current, baseline, candidate)
    ensures failure == Some(Integrity) <==> current.Some? && current != Some(baseline.sha256)
    ensures failure == Some(FormatMismatch) <==>
              && (current.Some? ==> current == Some(baseline.sha256))
              && baseline.format.Some? && candidate.format.Some? && baseline.format != candidate.format
  {
    if current.Some? && current.value != baseline.sha256 then Some(Integrity)
    else if baseline.format.None? || candidate.format.None? then Some(MalformedDocument)
    else if baseline.format != candidate.format then Some(FormatMismatch)
    else if baseline.snapshot.None? || candidate.snapshot.None? then Some(MalformedDocument)
    else None
  }

  /** The part of `submit_policy_result` that applies an accepted result. */
  ghost function AcceptResult(w: World, id: string, submission: PolicySubmission, env: Surroundings): World
    requires id in w.records
  {
    var prior := ReceivedSubmission(w.records[id].events, submission.requestId);
    var w1 := if prior.None? then Log(w, id, SubmissionReceived(submission)) else w;
    var step := ApplyStep(w1, w.records[id].prepared, submission.policy, false, env);
    Log(step.world, id, SubmissionApplied(submission, step.outcome.value))
  }

  /** `submit_policy_result`. */
  ghost function SubmitStep(w: World, id: string, submission: PolicySubmission, token: string, env: Surroundings)
    : (World, Result<AnalysisStatusView, Failure>)
  {
    if id !in w.records then (w, Err(NotFound))
    else if Fold(w.records[id].events).state == SUPERSEDED then (w, Err(Conflict("superseded")))
    else
      var (w1, request) := EnsureRequest(w, id, token);
      var p, events := w.records[id].prepared, w1.records[id].events;
      var prior := ReceivedSubmission(events, request.requestId);
      if request.requestId != submission.requestId then (w1, Err(Conflict("stale request")))
      else if request.analysisId != id then (w1, Err(Conflict("foreign request")))
      else if submission.policy.candidateSha256 != Some(p.candidate.sha256) then (w1, Err(Conflict("candidate")))
      else if prior.Some? && prior.value != submission then (w1, Err(Conflict("different result")))
      else if AppliedSubmission(events, request.requestId) then (w1, Ok(StatusOf(w1, id)))
      else
        var w2 := AcceptResult(w1, id, submission, env);
        (w2, Ok(StatusOf(w2, id)))
  }

  /** `dispatch`; `answer` is what the analyzer returns, or None if it raises. */
  ghost function DispatchStep(w: World, id: string, answer: Option<PolicySubmission>, token: string, env: Surroundings)
    : (World, Result<AnalysisStatusView, Failure>)
  {
    if id !in w.records then (w, Err(NotFound))
    else
      var (w1, request) := EnsureRequest(w, id, token);
      var w2 := Log(w1, id, DispatchStarted(request.requestId));
      match answer
      case None => (Log(w2, id, DispatchFailed(request.requestId)), Err(ExternalService))
      case Some(submission) => SubmitStep(w2, id, submission, token, env)
  }

  function Replacement(w: World, p: PreparedAnalysis, token: string): PreparedAnalysis {
    p.(analysisId := "anl_" + token, attempt := p.attempt + 1, supersedes := Some(p.analysisId), preparedAt := w.clock)
  }

  /** `_create_reanalysis`: a new attempt on the same evidence, which supersedes this one. */
  function ReanalysisStep(w: World, p: PreparedAnalysis, token: string): (w': World)
    requires "anl_" + token !in w.records
    ensures w'.records.Keys == w.records.Keys + {"anl_" + token} && w'.index == w.index && w'.config == w.config
  {
    var replacement := Replacement(w, p, token);
    var w1 := RecordPrepared(w, replacement);
    var w2 := LogIfKnown(w1, p.analysisId, AnalysisSuperseded(replacement.analysisId));
    EnsureRequest(w2, replacement.analysisId, token).0
  }

  ghost function Complete(w: World, id: string, command: OperatorCommand, outcome: IndexOutcome, replacement: Option<string>)
    : (World, Result<OperatorCommandResult, Failure>)
    requires id in w.records
  {
    var w1 := Log(w, id, CommandCompleted(command, Some(outcome), replacement));
    (w1, Ok(OperatorCommandResult(command, StatusOf(w1, id), Some(outcome), replacement, false)))
  }

  /** The end of `execute_command`: the completed command is recorded, unless that write raises. */
  ghost function Finish(w: World, id: string, command: OperatorCommand, outcome: IndexOutcome, replacement: Option<string>,
                        env: Surroundings): (World, Result<OperatorCommandResult, Failure>)
    requires id in w.records
  {
    if env.completionFault then (w, Err(AuditWrite)) else Complete(w, id, command, outcome, replacement)
  }

  /** The three actions of `execute_command`. */
  ghost function PerformStep(w: World, id: string, command: OperatorCommand, token: string, env: Surroundings)
    : (World, Result<OperatorCommandResult, Failure>)
    requires id in w.records && "anl_" + token !in w.records
  {
    var p := w.records[id].prepared;
    match command.action
    case Approve =>
      var policy := LatestAppliedPolicy(w.records[id].events);
      if policy.None? || policy.value.decision != ALLOW || policy.value.indexAction != INDEX
      then (w, Err(Conflict("no approval")))
      else
        var step := ApplyStep(w, p, policy.value, true, env);
        if step.outcome.None? then (step.world, Err(AuditWrite))
        else Finish(step.world, id, command, step.outcome.value, None, env)
    case Hold =>
      var step := HoldStep(w, p, "OPERATOR_HOLD", env);
      Finish(step.world, id, command, step.outcome.value, None, env)
    case Reanalyze =>
      var step := HoldStep(w, p, "OPERATOR_REANALYZE_HOLD", env);
      if env.blob != Content(p.candidate.sha256) then (step.world, Err(Integrity))
      else
        var w1 := ReanalysisStep(step.world, p, token);
        Finish(w1, id, command, step.outcome.value, Some("anl_" + token), env)
  }

  /** `execute_command`: a completed key is replayed, a command not offered is refused. */
  ghost function ExecuteStep(w: World, id: string, command: OperatorCommand, token: string, env: Surroundings)
    : (World, Result<OperatorCommandResult, Failure>)
    requires "anl_" + token !in w.records
  {
    if id !in w.records then (w, Err(NotFound))
    else
      var p, events := w.records[id].prepared, w.records[id].events;
      var replay := CompletedCommand(events, command.idempotencyKey);
      var at := Fold(events);
      if command.expectedCandidateSha256 != p.candidate.sha256 then (w, Err(Conflict("candidate")))
      else if replay.Some? then
        if replay.value.command != command then (w, Err(Conflict("idempotency key")))
        else (w, Ok(OperatorCommandResult(
                      command, StatusOf(w, id), replay.value.commandOutcome, replay.value.replacementId, true)))
      else if command.action !in AllowedCommands(at.state, at.policy) then (w, Err(Conflict("not allowed")))
      else PerformStep(w, id, command, token, env)
  }

  // ---------------------------------------------------------------- fresh commands

  /** A command that is neither refused nor replayed. */
  ghost predicate IsFresh(w: World, id: string, command: OperatorCommand)
    requires id in w.records
  {
    && command.expectedCandidateSha256 == w.records[id].prepared.candidate.sha256
    && CompletedCommand(w.records[id].events, command.idempotencyKey).None?
    && command.action in AllowedCommands(Fold(w.records[id].events).state, Fold(w.records[id].events).policy)
  }

  /** What an approval does when it is not a replay. */
  lemma FreshApproval(w: World, id: string, command: OperatorCommand, token: string, env: Surroundings)
    requires id in w.records && "anl_" + token !in w.records && IsFresh(w, id, command) && command.action == Approve
    requires var policy := LatestAppliedPolicy(w.records[id].events);
             policy.Some? && policy.value.decision == ALLOW && policy.value.indexAction == INDEX
    ensures var step := ApplyStep(w, w.records[id].prepared, LatestAppliedPolicy(w.records[id].events).value, true, env);
            (ExecuteStep(w, id, command, token, env)
             == if step.outcome.None? then (step.world, Err(AuditWrite))
                else Finish(step.world, id, command, step.outcome.value, None, env))
  {
  }

  /** What a reanalysis command does when it is not a replay. */
  lemma FreshReanalysis(w: World, id: string, command: OperatorCommand, token: string, env: Surroundings)
    requires id in w.records && "anl_" + token !in w.records && IsFresh(w, id, command) && command.action == Reanalyze
    ensures var p := w.records[id].prepared;
            var step := HoldStep(w, p, "OPERATOR_REANALYZE_HOLD", env);
            (ExecuteStep(w, id, command, token, env)
             == if env.blob != Content(p.candidate.sha256) then (step.world, Err(Integrity))
                else Finish(ReanalysisStep(step.world, p, token), id, command, step.outcome.value, Some("anl_" + token), env))
  {
  }
}
