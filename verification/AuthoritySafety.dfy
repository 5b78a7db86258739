/** On guarded runs the console's independent checks never fail: every status agrees with its
    evidence, every command result matches, and a replay answers as the first call did. */
module AuthoritySafety {
  import opened Wrappers
  import opened Contracts
  import opened AuditChain
  import opened Gate
  import opened Operations
  import opened Dashboard
  import opened Runs
  import opened LogViews

  // ---------------------------------------------------------------- the invariant

  ghost predicate WellPrepared(p: PreparedAnalysis, id: string) {
    && p.analysisId == id
    && p.baseline.documentId == p.documentId && p.candidate.documentId == p.documentId
    && p.diff == DiffReport(p.baseline.sha256, p.candidate.sha256)
  }

  /** State, policy and outcome as the log tells them fit together and belong to `p`. */
  ghost predicate Told(p: PreparedAnalysis, at: Progress) {
    && (at.policy.Some? ==> at.policy.value.Valid() && at.policy.value.candidateSha256 == Some(p.candidate.sha256))
    && (at.outcome.Some? ==> Honest(at.outcome.value, p))
    && (at.outcome.Some? && at.outcome.value.action == INDEX ==> IsAllowIndex(at.policy))
    && (if IsPrePolicy(at.state) then at.policy.None? && at.outcome.None?
        else
          && at.outcome.Some?
          && (at.state == AWAITING_APPROVAL ==> IsAllowIndex(at.policy) && at.outcome.value.action == HOLD)
          && (at.state == ON_HOLD ==> at.outcome.value.action == HOLD)
          && (at.state == INDEXED ==> at.outcome.value.action == INDEX)
          && (at.state == QUARANTINED ==> at.outcome.value.action == QUARANTINE))
  }

  /** A completed command as the client accepts it when it is replayed. */
  ghost predicate CommandSound(p: PreparedAnalysis, payload: Payload) {
    && payload.CommandCompleted?
    && var command := payload.command;
    && command.expectedCandidateSha256 == p.candidate.sha256
    && payload.commandOutcome.Some? && Honest(payload.commandOutcome.value, p)
    && (command.action == Approve ==> payload.commandOutcome.value.action != HOLD)
    && (command.action != Approve ==> payload.commandOutcome.value.action == HOLD)
    && (if command.action == Reanalyze
        then payload.replacementId.Some? && !IsBlank(payload.replacementId.value)
             && payload.replacementId.value != p.analysisId
        else payload.replacementId.None?)
  }

  ghost predicate SoundView(p: PreparedAnalysis, v: View) {
    && Told(p, v.at)
    && v.request.Some? && v.request.value.analysisId == p.analysisId
    && (forall c | c in v.commands :: CommandSound(p, c) && (c.command.action == Reanalyze ==> v.at.state == SUPERSEDED))
  }

  ghost predicate Sound(w: World, id: string)
    requires id in w.records
  {
    && WellPrepared(w.records[id].prepared, id) && ChainValid(w, id)
    && SoundView(w.records[id].prepared, ViewOf(w, id))
  }

  ghost predicate AllSound(w: World) {
    forall id | id in w.records :: Sound(w, id)
  }

  // ---------------------------------------------------------------- what the invariant gives

  ghost predicate Trusted(w: World, id: string)
    requires id in w.records
  {
    AuthorityIssues(StatusOf(w, id), w.records[id].prepared) == []
  }

  lemma SoundIsTrusted(w: World, id: string)
    requires id in w.records && Sound(w, id)
    ensures Trusted(w, id)
  {
  }

  lemma ReanalyzeStaysOpen(w: World, id: string)
    requires id in w.records && Sound(w, id)
    ensures Reanalyze in EffectiveCommands(StatusOf(w, id), w.records[id].prepared)
       <==> StatusOf(w, id).state != SUPERSEDED
  {
    SoundIsTrusted(w, id);
    var at := Fold(w.records[id].events);
    var commands := AllowedCommands(at.state, at.policy);
    if at.state != SUPERSEDED { assert commands[|commands| - 1] == Reanalyze; }
  }

  // ---------------------------------------------------------------- steps on one analysis

  /** One analysis changed and is sound again, so all are. */
  lemma TouchedSound(w: World, w': World, id: string, v: View)
    requires AllSound(w) && id in w.records && Touched(w, w', id, v) && SoundView(w.records[id].prepared, v)
    ensures AllSound(w')
  {
    forall other | other in w'.records ensures Sound(w', other) {
      assert Sound(w, other);
    }
  }

  lemma GatedSound(p: PreparedAnalysis, v: View, outcome: IndexOutcome)
    requires SoundView(p, v) && v.at.state != SUPERSEDED && Honest(outcome, p)
    requires outcome.action == INDEX ==> IsAllowIndex(v.at.policy)
    ensures SoundView(p, Gated(v, outcome)) && Gated(v, outcome).at.state != SUPERSEDED
    ensures Gated(v, outcome).commands == v.commands
    ensures !IsPrePolicy(Gated(v, outcome).at.state)
  {
  }

  lemma AppliedSound(p: PreparedAnalysis, v: View, submission: PolicySubmission, outcome: IndexOutcome)
    requires SoundView(p, v) && v.at.state != SUPERSEDED && Honest(outcome, p) && outcome.action != INDEX
    requires submission.policy.Valid() && submission.policy.candidateSha256 == Some(p.candidate.sha256)
    ensures SoundView(p, ReadOne(v, SubmissionApplied(submission, outcome)))
  {
  }

  lemma AcceptTouches(w: World, id: string, submission: PolicySubmission, env: Surroundings)
    returns (outcome: IndexOutcome)
    requires AllSound(w) && id in w.records && submission.policy.Valid() && env.removeFault.None?
    ensures Honest(outcome, w.records[id].prepared) && outcome.action != INDEX
    ensures Touched(w, AcceptResult(w, id, submission, env), id,
                    ReadOne(Gated(ViewOf(w, id), outcome), SubmissionApplied(submission, outcome)))
  {
    assert Sound(w, id);
    var w1 := if ReceivedSubmission(w.records[id].events, submission.requestId).None?
              then Log(w, id, SubmissionReceived(submission)) else w;
    ReceivingTouches(w, id, submission);
    var step := ApplyStep(w1, w1.records[id].prepared, submission.policy, false, env);
    ApplyTouches(w1, id, submission.policy, false, env);
    outcome := step.outcome.value;
    AppliedTouches(w, w1, id, submission, step, ViewOf(w, id));
  }

  lemma ReceivingTouches(w: World, id: string, submission: PolicySubmission)
    requires id in w.records
    ensures Touched(w, w, id, ViewOf(w, id)) && Touched(w, Log(w, id, SubmissionReceived(submission)), id, ViewOf(w, id))
  {
    LogTouches(w, id, SubmissionReceived(submission));
    assert ReadOne(ViewOf(w, id), SubmissionReceived(submission)) == ViewOf(w, id);
  }

  lemma AppliedTouches(w: World, w1: World, id: string, submission: PolicySubmission, step: GateStep, v: View)
    requires id in w.records && Touched(w, w1, id, v) && step.outcome.Some?
    requires Touched(w1, step.world, id, Gated(v, step.outcome.value))
    ensures Touched(w, Log(step.world, id, SubmissionApplied(submission, step.outcome.value)), id,
                    ReadOne(Gated(v, step.outcome.value), SubmissionApplied(submission, step.outcome.value)))
  {
    var outcome := step.outcome.value;
    TouchTwice(w, w1, step.world, id, v, Gated(v, outcome));
    LogTouches(step.world, id, SubmissionApplied(submission, outcome));
    TouchTwice(w, step.world, Log(step.world, id, SubmissionApplied(submission, outcome)), id, Gated(v, outcome),
               ReadOne(Gated(v, outcome), SubmissionApplied(submission, outcome)));
  }

  lemma AcceptKeepsSound(w: World, id: string, submission: PolicySubmission, env: Surroundings)
    requires AllSound(w) && id in w.records && submission.policy.Valid() && env.removeFault.None?
    requires submission.policy.candidateSha256 == Some(w.records[id].prepared.candidate.sha256)
    requires Fold(w.records[id].events).state != SUPERSEDED
    ensures AllSound(AcceptResult(w, id, submission, env))
  {
    assert Sound(w, id);
    var p, v := w.records[id].prepared, ViewOf(w, id);
    var outcome := AcceptTouches(w, id, submission, env);
    GatedSound(p, v, outcome);
    AppliedSound(p, Gated(v, outcome), submission, outcome);
    TouchedSound(w, AcceptResult(w, id, submission, env), id,
                 ReadOne(Gated(v, outcome), SubmissionApplied(submission, outcome)));
  }

  lemma SubmitKeepsSound(w: World, id: string, submission: PolicySubmission, token: string, env: Surroundings)
    requires AllSound(w) && submission.policy.Valid() && env.removeFault.None?
    ensures AllSound(SubmitStep(w, id, submission, token, env).0)
  {
    if id in w.records && Fold(w.records[id].events).state != SUPERSEDED
       && submission.policy.candidateSha256 == Some(w.records[id].prepared.candidate.sha256) {
      assert Sound(w, id);
      AcceptKeepsSound(w, id, submission, env);
    } else if id in w.records {
      assert Sound(w, id);
    }
  }

  lemma LogsQuietly(w: World, id: string, payload: Payload)
    requires AllSound(w) && id in w.records && SoundView(w.records[id].prepared, ReadOne(ViewOf(w, id), payload))
    ensures AllSound(Log(w, id, payload))
  {
    LogTouches(w, id, payload);
    TouchedSound(w, Log(w, id, payload), id, ReadOne(ViewOf(w, id), payload));
  }

  lemma StartKeepsSound(w: World, id: string, requestId: string)
    requires AllSound(w) && id in w.records
    ensures AllSound(Log(w, id, DispatchStarted(requestId)))
    ensures ViewOf(Log(w, id, DispatchStarted(requestId)), id) == ViewOf(w, id)
  {
    assert Sound(w, id);
    assert ReadOne(ViewOf(w, id), DispatchStarted(requestId)) == ViewOf(w, id);
    LogsQuietly(w, id, DispatchStarted(requestId));
    LogTouches(w, id, DispatchStarted(requestId));
  }

  lemma RequestIsMade(w: World, id: string, token: string)
    requires AllSound(w) && id in w.records
    ensures EnsureRequest(w, id, token) == (w, ViewOf(w, id).request.value)
  {
    assert Sound(w, id);
  }

  lemma StartIsLogged(w: World, id: string, token: string)
    requires AllSound(w) && id in w.records
    ensures StartStep(w, id, token) == Log(w, id, DispatchStarted(ViewOf(w, id).request.value.requestId))
  {
    RequestIsMade(w, id, token);
  }

  lemma StartReads(w: World, id: string, token: string)
    requires AllSound(w) && id in w.records
    ensures Touched(w, StartStep(w, id, token), id, ViewOf(w, id)) && AllSound(StartStep(w, id, token))
  {
    StartIsLogged(w, id, token);
    StartKeepsSound(w, id, ViewOf(w, id).request.value.requestId);
    LogTouches(w, id, DispatchStarted(ViewOf(w, id).request.value.requestId));
  }

  lemma FailKeepsSound(w: World, id: string, requestId: string)
    requires AllSound(w) && id in w.records && IsPrePolicy(ViewOf(w, id).at.state)
    ensures AllSound(Log(w, id, DispatchFailed(requestId)))
  {
    assert Sound(w, id);
    LogsQuietly(w, id, DispatchFailed(requestId));
  }

  lemma DispatchKeepsSound(w: World, id: string, answer: Option<PolicySubmission>, token: string, env: Surroundings)
    requires AllSound(w) && id in w.records && IsPrePolicy(ViewOf(w, id).at.state) && env.removeFault.None?
    requires answer.Some? ==> answer.value.policy.Valid()
    ensures AllSound(DispatchStep(w, id, answer, token, env).0)
  {
    assert Sound(w, id);
    var request := ViewOf(w, id).request.value;
    assert EnsureRequest(w, id, token) == (w, request);
    var w1 := Log(w, id, DispatchStarted(request.requestId));
    StartKeepsSound(w, id, request.requestId);
    match answer
    case None => FailKeepsSound(w1, id, request.requestId);
    case Some(submission) => SubmitKeepsSound(w1, id, submission, token, env);
  }

  // ---------------------------------------------------------------- commands

  function Completing(v: View, command: OperatorCommand, outcome: IndexOutcome, replacement: Option<string>): View {
    ReadOne(v, CommandCompleted(command, Some(outcome), replacement))
  }

  lemma AllowedIsOpen(at: Progress, action: OperatorAction)
    requires action in AllowedCommands(at.state, at.policy)
    ensures at.state != SUPERSEDED
    ensures action == Approve ==> at.policy.Some? && at.policy.value.decision == ALLOW
  {
  }

  /** The gate recorded its outcome for the command, but the completed command was not recorded. */
  ghost predicate Unfinished(w: World, w': World, id: string)
    requires id in w.records
  {
    exists outcome ::
      && Honest(outcome, w.records[id].prepared)
      && (outcome.action == INDEX ==> IsAllowIndex(ViewOf(w, id).at.policy))
      && Touched(w, w', id, Gated(ViewOf(w, id), outcome))
  }

  /** An approval: the audit write failed and the log reads as before, only the outcome is recorded, or the
      outcome and the command are. */
  lemma ApproveTouches(w: World, id: string, command: OperatorCommand, token: string, env: Surroundings)
    requires AllSound(w) && id in w.records && "anl_" + token !in w.records && env.removeFault.None?
    requires IsFresh(w, id, command) && command.action == Approve
    ensures var (w', result) := ExecuteStep(w, id, command, token, env); var p, v := w.records[id].prepared, ViewOf(w, id);
            match result
            case Err(_) => Touched(w, w', id, v) || Unfinished(w, w', id)
            case Ok(r) =>
              && r.outcome.Some? && Honest(r.outcome.value, p) && r.outcome.value.action != HOLD
              && Touched(w, w', id, Completing(Gated(v, r.outcome.value), command, r.outcome.value, None))
              && r == OperatorCommandResult(command, StatusOf(w', id), r.outcome, None, false)
  {
    assert Sound(w, id);
    var p, v := w.records[id].prepared, ViewOf(w, id);
    AllowedIsOpen(v.at, Approve);
    PolicyIsLatest(w.records[id].events);
    var policy := v.at.policy.value;
    var step := ApplyStep(w, p, policy, true, env);
    ApplyTouches(w, id, policy, true, env);
    FreshApproval(w, id, command, token, env);
    if step.outcome.Some? {
      var outcome := step.outcome.value;
      assert Touched(w, step.world, id, Gated(v, outcome));
      LogTouches(step.world, id, CommandCompleted(command, Some(outcome), None));
      TouchTwice(w, step.world, Complete(step.world, id, command, outcome, None).0, id, Gated(v, outcome),
                 Completing(Gated(v, outcome), command, outcome, None));
    }
  }

  lemma HoldCommandTouches(w: World, id: string, command: OperatorCommand, token: string, env: Surroundings)
    requires AllSound(w) && id in w.records && "anl_" + token !in w.records && env.removeFault.None?
    requires IsFresh(w, id, command) && command.action == Hold
    ensures var (w', result) := ExecuteStep(w, id, command, token, env); var p, v := w.records[id].prepared, ViewOf(w, id);
            match result
            case Err(_) => Unfinished(w, w', id)
            case Ok(r) =>
              && r.outcome.Some? && Honest(r.outcome.value, p) && r.outcome.value.action == HOLD
              && Touched(w, w', id, Completing(Gated(v, r.outcome.value), command, r.outcome.value, None))
              && r == OperatorCommandResult(command, StatusOf(w', id), r.outcome, None, false)
  {
    assert Sound(w, id);
    var p, v := w.records[id].prepared, ViewOf(w, id);
    var step := HoldStep(w, p, "OPERATOR_HOLD", env);
    HoldTouches(w, id, "OPERATOR_HOLD", env);
    var outcome := step.outcome.value;
    LogTouches(step.world, id, CommandCompleted(command, Some(outcome), None));
    TouchTwice(w, step.world, Complete(step.world, id, command, outcome, None).0, id, Gated(v, outcome),
               Completing(Gated(v, outcome), command, outcome, None));
  }

  lemma CompletedSound(p: PreparedAnalysis, v: View, command: OperatorCommand, outcome: IndexOutcome)
    requires SoundView(p, v) && v.at.state != SUPERSEDED && Honest(outcome, p) && command.action != Reanalyze
    requires command.expectedCandidateSha256 == p.candidate.sha256
    requires outcome.action == INDEX ==> IsAllowIndex(v.at.policy)
    requires command.action == Hold <==> outcome.action == HOLD
    ensures SoundView(p, Completing(Gated(v, outcome), command, outcome, None))
  {
    GatedSound(p, v, outcome);
  }

  // ---------------------------------------------------------------- new analyses

  /** How the log of a new analysis reads. */
  function FirstView(p: PreparedAnalysis, token: string): View {
    View(Progress(ANALYSIS_REQUESTED, Some("req_" + token), None, None), Some(RequestFor(p, token)), [])
  }

  /** From `w` to `w'` only the analysis `p` was added, as a first view. */
  ghost predicate Added(w: World, w': World, p: PreparedAnalysis, token: string) {
    && p.analysisId !in w.records
    && w'.config == w.config && w'.records.Keys == w.records.Keys + {p.analysisId} && w'.index == w.index
    && (forall other | other in w.records :: w'.records[other] == w.records[other])
    && w'.records[p.analysisId].prepared == p && ChainValid(w', p.analysisId)
    && ViewOf(w', p.analysisId) == FirstView(p, token)
  }

  lemma RecordingReads(w: World, p: PreparedAnalysis)
    requires p.analysisId !in w.records
    ensures var w1 := RecordPrepared(w, p);
            ViewOf(w1, p.analysisId) == View(START, None, []) && ChainValid(w1, p.analysisId)
  {
    var events := RecordPrepared(w, p).records[p.analysisId].events;
    AppendVerifies(w.config.hash, p.analysisId, [], AnalysisPrepared(p), w.clock);
    assert |events| == 1 && events[0].payload == AnalysisPrepared(p);
    assert events == [events[0]];
    GenesisReads(events[0]);
  }

  lemma GenesisReads(genesis: Event)
    requires genesis.payload.AnalysisPrepared?
    ensures Read([genesis]) == View(START, None, [])
  {
    assert [genesis][..0] == [];
    assert Fold([genesis]) == START;
    assert LatestRequest([genesis]) == None;
    assert Commands([genesis]) == [];
  }

  lemma PreparingAdds(w: World, p: PreparedAnalysis, token: string)
    requires p.analysisId !in w.records
    ensures Added(w, EnsureRequest(RecordPrepared(w, p), p.analysisId, token).0, p, token)
  {
    var w1 := RecordPrepared(w, p);
    RecordingReads(w, p);
    LogTouches(w1, p.analysisId, AnalysisRequested(RequestFor(p, token)));
  }

  lemma AddedSound(w: World, w': World, p: PreparedAnalysis, token: string)
    requires AllSound(w) && Added(w, w', p, token) && WellPrepared(p, p.analysisId)
    ensures AllSound(w')
  {
    forall id | id in w'.records ensures Sound(w', id) {
      if id != p.analysisId { assert Sound(w, id); }
    }
  }

  /** From `w` to `w'` the log of `id` reads as `v`, and a replacement of it was added. */
  ghost predicate Superseded(w: World, w': World, id: string, v: View, replacement: PreparedAnalysis, token: string)
    requires id in w.records
  {
    var newId := replacement.analysisId;
    && newId !in w.records
    && w'.config == w.config && w'.records.Keys == w.records.Keys + {newId}
    && (forall other | other in w.records && other != id :: w'.records[other] == w.records[other])
    && w'.records[id].prepared == w.records[id].prepared && ChainValid(w', id) && ViewOf(w', id) == v
    && w'.records[newId].prepared == replacement && ChainValid(w', newId)
    && ViewOf(w', newId) == FirstView(replacement, token)
  }

  function Superseding(v: View, newId: string): View {
    ReadOne(v, AnalysisSuperseded(newId))
  }

  lemma ReanalysisSupersedes(w: World, id: string, token: string)
    requires id in w.records && w.records[id].prepared.analysisId == id && ChainValid(w, id)
    requires "anl_" + token !in w.records
    ensures var p := w.records[id].prepared;
            Superseded(w, ReanalysisStep(w, p, token), id, Superseding(ViewOf(w, id), "anl_" + token),
                       Replacement(w, p, token), token)
  {
    var p := w.records[id].prepared;
    var replacement := Replacement(w, p, token);
    var newId := replacement.analysisId;
    var w1 := RecordPrepared(w, replacement);
    RecordingReads(w, replacement);
    var w2 := Log(w1, id, AnalysisSuperseded(newId));
    LogTouches(w1, id, AnalysisSuperseded(newId));
    LogTouches(w2, newId, AnalysisRequested(RequestFor(replacement, token)));
    assert ReanalysisStep(w, p, token) == Log(w2, newId, AnalysisRequested(RequestFor(replacement, token)));
  }

  /** A reanalysis command: if the candidate's bytes are gone it stops after the hold, else the
      analysis is superseded by a new attempt, and the command is recorded unless that write raises. */
  lemma ReanalyzeTouches(w: World, id: string, command: OperatorCommand, token: string, env: Surroundings)
    requires AllSound(w) && id in w.records && "anl_" + token !in w.records && env.removeFault.None?
    requires IsFresh(w, id, command) && command.action == Reanalyze
    ensures var (w', result) := ExecuteStep(w, id, command, token, env); var p, v := w.records[id].prepared, ViewOf(w, id);
            var outcome := HoldStep(w, p, "OPERATOR_REANALYZE_HOLD", env).outcome.value;
            && Honest(outcome, p) && outcome.action == HOLD
            && match result
               case Err(_) =>
                 || Touched(w, w', id, Gated(v, outcome))
                 || Superseded(w, w', id, Superseding(Gated(v, outcome), "anl_" + token),
                      Replacement(HoldStep(w, p, "OPERATOR_REANALYZE_HOLD", env).world, p, token), token)
               case Ok(r) =>
                 && Superseded(w, w', id,
                      Completing(Superseding(Gated(v, outcome), "anl_" + token), command, outcome, Some("anl_" + token)),
                      Replacement(HoldStep(w, p, "OPERATOR_REANALYZE_HOLD", env).world, p, token), token)
                 && r == OperatorCommandResult(command, StatusOf(w', id), Some(outcome), Some("anl_" + token), false)
  {
    assert Sound(w, id);
    var p, v := w.records[id].prepared, ViewOf(w, id);
    var step := HoldStep(w, p, "OPERATOR_REANALYZE_HOLD", env);
    HoldTouches(w, id, "OPERATOR_REANALYZE_HOLD", env);
    FreshReanalysis(w, id, command, token, env);
    if env.blob == Content(p.candidate.sha256) {
      var outcome, newId := step.outcome.value, "anl_" + token;
      ReanalysisSupersedes(step.world, id, token);
      var w1 := ReanalysisStep(step.world, p, token);
      LogTouches(w1, id, CommandCompleted(command, Some(outcome), Some(newId)));
    }
  }

  lemma SupersededSound(w: World, w': World, id: string, v: View, replacement: PreparedAnalysis, token: string)
    requires AllSound(w) && id in w.records && Superseded(w, w', id, v, replacement, token)
    requires SoundView(w.records[id].prepared, v) && WellPrepared(replacement, replacement.analysisId)
    ensures AllSound(w')
  {
    forall other | other in w'.records ensures Sound(w', other) {
      if other in w.records { assert Sound(w, other); }
    }
  }

  lemma ReanalyzedSound(p: PreparedAnalysis, v: View, command: OperatorCommand, outcome: IndexOutcome, newId: string)
    requires SoundView(p, v) && v.at.state != SUPERSEDED && Honest(outcome, p) && outcome.action == HOLD
    requires command.action == Reanalyze && command.expectedCandidateSha256 == p.candidate.sha256
    requires !IsBlank(newId) && newId != p.analysisId
    ensures SoundView(p, Completing(Superseding(Gated(v, outcome), newId), command, outcome, Some(newId)))
  {
    GatedSound(p, v, outcome);
  }

  lemma NewIdIsNotBlank(token: string)
    ensures !IsBlank("anl_" + token)
  {
    var id := "anl_" + token;
    assert id[0] == 'a' && id[0] in id;
  }

  // ---------------------------------------------------------------- every step

  lemma UnfinishedSound(w: World, w': World, id: string)
    requires AllSound(w) && id in w.records && Fold(w.records[id].events).state != SUPERSEDED && Unfinished(w, w', id)
    ensures AllSound(w')
  {
    assert Sound(w, id);
    var p, v := w.records[id].prepared, ViewOf(w, id);
    var outcome :| && Honest(outcome, p) && (outcome.action == INDEX ==> IsAllowIndex(v.at.policy))
                   && Touched(w, w', id, Gated(v, outcome));
    GatedSound(p, v, outcome);
    TouchedSound(w, w', id, Gated(v, outcome));
  }

  lemma ExecuteKeepsSound(w: World, id: string, command: OperatorCommand, token: string, env: Surroundings)
    requires AllSound(w) && "anl_" + token !in w.records && env.removeFault.None?
    ensures AllSound(ExecuteStep(w, id, command, token, env).0)
  {
    if id in w.records && IsFresh(w, id, command) {
      assert Sound(w, id);
      var (w', result) := ExecuteStep(w, id, command, token, env);
      var p, v := w.records[id].prepared, ViewOf(w, id);
      AllowedIsOpen(v.at, command.action);
      match command.action {
        case Approve =>
          ApproveTouches(w, id, command, token, env);
          if result.Ok? {
            var outcome := result.value.outcome.value;
            CompletedSound(p, v, command, outcome);
            TouchedSound(w, w', id, Completing(Gated(v, outcome), command, outcome, None));
          } else if Unfinished(w, w', id) {
            UnfinishedSound(w, w', id);
          } else {
            TouchedSound(w, w', id, v);
          }
        case Hold =>
          HoldCommandTouches(w, id, command, token, env);
          if result.Ok? {
            var outcome := result.value.outcome.value;
            CompletedSound(p, v, command, outcome);
            TouchedSound(w, w', id, Completing(Gated(v, outcome), command, outcome, None));
          } else {
            UnfinishedSound(w, w', id);
          }
        case Reanalyze =>
          ReanalyzeKeepsSound(w, id, command, token, env);
      }
    } else {
      StaleCommandChangesNothing(w, id, command, token, env);
    }
  }

  /** How the log may read after a reanalysis command. */
  predicate ReadsReanalyzed(v: View, v': View, command: OperatorCommand, outcome: IndexOutcome, newId: string) {
    || v' == Gated(v, outcome)
    || v' == Superseding(Gated(v, outcome), newId)
    || v' == Completing(Superseding(Gated(v, outcome), newId), command, outcome, Some(newId))
  }

  lemma ReadsReanalyzedSound(p: PreparedAnalysis, v: View, v': View, command: OperatorCommand, outcome: IndexOutcome, newId: string)
    requires SoundView(p, v) && v.at.state != SUPERSEDED && Honest(outcome, p) && outcome.action == HOLD
    requires command.action == Reanalyze && command.expectedCandidateSha256 == p.candidate.sha256
    requires !IsBlank(newId) && newId != p.analysisId && ReadsReanalyzed(v, v', command, outcome, newId)
    ensures SoundView(p, v')
  {
    GatedSound(p, v, outcome);
    ReanalyzedSound(p, v, command, outcome, newId);
  }

  lemma ReadingsDiffer(v: View, command: OperatorCommand, outcome: IndexOutcome, newId: string)
    ensures Gated(v, outcome) != Superseding(Gated(v, outcome), newId)
    ensures command.action == Reanalyze ==>
              Gated(v, outcome) != Completing(Superseding(Gated(v, outcome), newId), command, outcome, Some(newId))
  {
  }

  /** What `ReanalyzeTouches` says, by the reading of the log alone. */
  lemma ReanalyzeReads(w: World, id: string, command: OperatorCommand, token: string, env: Surroundings) returns (v': View)
    requires AllSound(w) && id in w.records && "anl_" + token !in w.records && env.removeFault.None?
    requires IsFresh(w, id, command) && command.action == Reanalyze
    ensures var p, w' := w.records[id].prepared, ExecuteStep(w, id, command, token, env).0;
            var step := HoldStep(w, p, "OPERATOR_REANALYZE_HOLD", env); var outcome := step.outcome.value;
            && Honest(outcome, p) && outcome.action == HOLD
            && ReadsReanalyzed(ViewOf(w, id), v', command, outcome, "anl_" + token)
            && (if v' == Gated(ViewOf(w, id), outcome) then Touched(w, w', id, v')
                else Superseded(w, w', id, v', Replacement(step.world, p, token), token))
  {
    var (w', result) := ExecuteStep(w, id, command, token, env);
    ReanalyzeTouches(w, id, command, token, env);
    var p, v, newId := w.records[id].prepared, ViewOf(w, id), "anl_" + token;
    var outcome := HoldStep(w, p, "OPERATOR_REANALYZE_HOLD", env).outcome.value;
    ReadingsDiffer(v, command, outcome, newId);
    v' := if result.Ok? then Completing(Superseding(Gated(v, outcome), newId), command, outcome, Some(newId))
          else if Touched(w, w', id, Gated(v, outcome)) then Gated(v, outcome)
          else Superseding(Gated(v, outcome), newId);
  }

  lemma ReanalyzeKeepsSound(w: World, id: string, command: OperatorCommand, token: string, env: Surroundings)
    requires AllSound(w) && "anl_" + token !in w.records && env.removeFault.None?
    requires id in w.records && IsFresh(w, id, command) && command.action == Reanalyze
    ensures AllSound(ExecuteStep(w, id, command, token, env).0)
  {
    assert Sound(w, id);
    var p, w' := w.records[id].prepared, ExecuteStep(w, id, command, token, env).0;
    var step := HoldStep(w, p, "OPERATOR_REANALYZE_HOLD", env);
    AllowedIsOpen(ViewOf(w, id).at, command.action);
    var v' := ReanalyzeReads(w, id, command, token, env);
    NewIdIsNotBlank(token);
    ReadsReanalyzedSound(p, ViewOf(w, id), v', command, step.outcome.value, "anl_" + token);
    if Touched(w, w', id, v') {
      TouchedSound(w, w', id, v');
    } else {
      SupersededSound(w, w', id, v', Replacement(step.world, p, token), token);
    }
  }

  /** A guarded step: removals do not throw, and an analysis is dispatched only where the console
      offers it; in parts, the dispatch must still be offered when it fails. Commands need no guard: the
      gateway refuses what it does not offer. */
  ghost predicate Guarded(w: World, step: Step) {
    match step
    case Submit(_, _, _, env) => env.removeFault.None?
    case Dispatch(id, _, _, env) =>
      env.removeFault.None? && (id in w.records ==> CanDispatch(StatusOf(w, id), w.records[id].prepared))
    case Command(_, _, _, env) => env.removeFault.None?
    case Fail(id, _) => id in w.records ==> CanDispatch(StatusOf(w, id), w.records[id].prepared)
    case _ => true
  }

  lemma NextKeepsSound(w: World, step: Step)
    requires AllSound(w) && Possible(w, step) && Guarded(w, step)
    ensures AllSound(Next(w, step))
  {
    match step
    case Prepare(baseline, candidate, changedBy, version, token) =>
      var p := NewAnalysis(w, baseline, candidate, changedBy, version, token);
      PreparingAdds(w, p, token);
      AddedSound(w, EnsureRequest(RecordPrepared(w, p), p.analysisId, token).0, p, token);
    case Submit(id, submission, token, env) => SubmitKeepsSound(w, id, submission, token, env);
    case Dispatch(id, answer, token, env) =>
      if id in w.records { DispatchKeepsSound(w, id, answer, token, env); }
    case Command(id, command, token, env) => ExecuteKeepsSound(w, id, command, token, env);
    case Store(_, _, _, _, _, token) =>
      var p := Put(step, w.clock);
      PreparingAdds(w, p, token);
      AddedSound(w, StoreStep(w, p, token), p, token);
    case Start(id, token) =>
      if id in w.records { StartReads(w, id, token); }
    case Fail(id, requestId) =>
      if id in w.records { FailKeepsSound(w, id, requestId); }
    case Look =>
  }

  ghost predicate IsGuardedRun(ws: seq<World>, steps: seq<Step>) {
    IsRun(ws, steps) && forall i | 0 <= i < |steps| :: Guarded(ws[i], steps[i])
  }

  lemma {:induction false} GuardedRunsAreSound(ws: seq<World>, steps: seq<Step>, n: nat)
    requires IsGuardedRun(ws, steps) && n < |ws|
    ensures AllSound(ws[n])
  {
    if n > 0 {
      GuardedRunsAreSound(ws, steps, n - 1);
      assert ws[n] == Next(ws[n - 1], steps[n - 1]);
      NextKeepsSound(ws[n - 1], steps[n - 1]);
    }
  }

  /** On guarded runs the console never finds an issue, and REANALYZE stays open to the end. */
  lemma GuardedRunsAreTrusted(ws: seq<World>, steps: seq<Step>, n: nat, id: string)
    requires IsGuardedRun(ws, steps) && n < |ws| && id in ws[n].records
    ensures Trusted(ws[n], id)
    ensures Reanalyze in EffectiveCommands(StatusOf(ws[n], id), ws[n].records[id].prepared)
       <==> StatusOf(ws[n], id).state != SUPERSEDED
  {
    GuardedRunsAreSound(ws, steps, n);
    assert Sound(ws[n], id);
    SoundIsTrusted(ws[n], id);
    ReanalyzeStaysOpen(ws[n], id);
  }

  lemma FailedAfterOutcome(status: AnalysisStatusView, analysis: PreparedAnalysis)
    requires status.state == ANALYSIS_FAILED && status.latestOutcome.Some?
    ensures AuthorityIssues(status, analysis) != []
  {
    assert !StateOutcomeConsistent(status);
  }

  lemma FailureReads(w: World, id: string, requestId: string)
    requires id in w.records
    ensures var w' := Log(w, id, DispatchFailed(requestId));
            && id in w'.records && w'.records[id].prepared == w.records[id].prepared
            && ViewOf(w', id).at == ViewOf(w, id).at.(state := ANALYSIS_FAILED)
  {
    LogTouches(w, id, DispatchFailed(requestId));
  }

  lemma FailedDispatchReads(w: World, id: string, token: string, env: Surroundings)
    requires AllSound(w) && id in w.records
    ensures var w' := DispatchStep(w, id, None, token, env).0;
            && id in w'.records && w'.records[id].prepared == w.records[id].prepared
            && ViewOf(w', id).at == ViewOf(w, id).at.(state := ANALYSIS_FAILED)
  {
    assert Sound(w, id);
    var requestId := ViewOf(w, id).request.value.requestId;
    assert EnsureRequest(w, id, token) == (w, ViewOf(w, id).request.value);
    var w1 := Log(w, id, DispatchStarted(requestId));
    StartKeepsSound(w, id, requestId);
    assert w1.records[id].prepared == w.records[id].prepared;
    FailureReads(w1, id, requestId);
    assert DispatchStep(w, id, None, token, env).0 == Log(w1, id, DispatchFailed(requestId));
  }

  /** The guard on dispatching is exact: a failed dispatch keeps the status trusted if and only if
      the console offered the dispatch. */
  lemma FailedDispatchExactly(w: World, id: string, token: string, env: Surroundings)
    requires AllSound(w) && id in w.records && env.removeFault.None?
    ensures var w' := DispatchStep(w, id, None, token, env).0;
            id in w'.records && (Trusted(w', id) <==> CanDispatch(StatusOf(w, id), w.records[id].prepared))
  {
    assert Sound(w, id);
    SoundIsTrusted(w, id);
    FailedDispatchReads(w, id, token, env);
    var w' := DispatchStep(w, id, None, token, env).0;
    if IsPrePolicy(ViewOf(w, id).at.state) {
      DispatchKeepsSound(w, id, None, token, env);
      assert Sound(w', id);
      SoundIsTrusted(w', id);
    } else {
      FailedAfterOutcome(StatusOf(w', id), w'.records[id].prepared);
    }
  }
}
