/** The way in: an analysis that is prepared, allowed by B and approved by C is indexed, exactly unless its
    candidate was the current version already, which the hold after B's answer takes out. */
module FirstApproval {
  import opened Wrappers
  import opened Contracts
  import opened VersionedIndex
  import opened Gate
  import opened GateLaws
  import opened Operations
  import opened Runs
  import opened LogViews
  import opened AuthoritySafety
  import opened ApprovalSafety
  import TextSplitter

  /** A log in which B has not answered and nothing was quarantined. */
  ghost predicate Unanswered(events: seq<Event>, requestId: string) {
    && !AlreadyQuarantined(events)
    && ReceivedSubmission(events, requestId).None? && !AppliedSubmission(events, requestId)
  }

  lemma LogStaysCalm(w: World, id: string, payload: Payload)
    requires id in w.records && !AlreadyQuarantined(w.records[id].events) && !IsQuarantine(payload)
    ensures !AlreadyQuarantined(Log(w, id, payload).records[id].events)
  {
    Logged(w, id, payload);
    var events, events' := w.records[id].events, Log(w, id, payload).records[id].events;
    forall i | 0 <= i < |events'| ensures !IsQuarantine(events'[i].payload) {
      if i < |events| { assert events'[i] == events'[..|events|][i]; }
    }
  }

  lemma GenesisIsUnanswered(genesis: Event, requestId: string)
    requires genesis.payload.AnalysisPrepared?
    ensures Unanswered([genesis], requestId)
  {
    assert [genesis][..0] == [];
    assert ReceivedSubmission([genesis], requestId) == None;
    assert !AppliedSubmission([genesis], requestId);
  }

  /** What preparing leaves: one request, no answer. */
  lemma PreparedIsUnanswered(w: World, p: PreparedAnalysis, token: string)
    requires p.analysisId !in w.records
    ensures var w1 := EnsureRequest(RecordPrepared(w, p), p.analysisId, token).0;
            Added(w, w1, p, token) && Unanswered(w1.records[p.analysisId].events, "req_" + token)
  {
    var id, request := p.analysisId, RequestFor(p, token);
    var w0 := RecordPrepared(w, p);
    PreparingAdds(w, p, token);
    RecordingReads(w, p);
    var events := w0.records[id].events;
    assert |events| == 1 && events == [events[0]] && events[0].payload == AnalysisPrepared(p);
    GenesisIsUnanswered(events[0], "req_" + token);
    Logged(w0, id, AnalysisRequested(request));
    LogStaysCalm(w0, id, AnalysisRequested(request));
  }

  // ---------------------------------------------------------------- B's answer

  /** B allows the candidate. */
  predicate Allows(policy: PolicyResult, sha: string) {
    policy.Valid() && policy.status == COMPLETED && policy.decision == ALLOW && policy.candidateSha256 == Some(sha)
  }

  /** Nothing fails around the call, and the candidate's own bytes are found. */
  predicate IsCalm(env: Surroundings, sha: string) {
    && env.blob == Content(sha) && env.removeFault.None? && env.writeFault.None? && env.receipt.None?
    && !env.auditFault && !env.completionFault
  }

  /** As calm, but for the audit: a write behind the indexing raises, and what was indexed stays. */
  predicate Strands(env: Surroundings, sha: string) {
    && IsCalm(env.(auditFault := false, completionFault := false, removeFault := None), sha)
    && (env.auditFault || env.completionFault) && (env.auditFault ==> env.removeFault.Some?)
  }

  /** Consistent evidence without anything that blocks. */
  predicate IsClean(p: PreparedAnalysis) {
    && p.candidate.documentId == p.documentId && p.diff == DiffReport(p.baseline.sha256, p.candidate.sha256)
    && (p.expectedCurrent.Some? ==> p.expectedCurrent.value == p.baseline.sha256)
    && HardBlocking(p.candidate.artifacts) == []
  }

  /** The gate's answer to an ALLOW that is not yet approved: a hold, which takes the candidate out. */
  lemma AllowIsHeld(w: World, id: string, policy: PolicyResult, env: Surroundings)
    requires id in w.records && w.records[id].prepared.analysisId == id && ChainValid(w, id)
    requires var p := w.records[id].prepared; IsClean(p) && Allows(policy, p.candidate.sha256) && IsCalm(env, p.candidate.sha256)
    requires !AlreadyQuarantined(w.records[id].events)
    ensures var p := w.records[id].prepared; var step := ApplyStep(w, p, policy, false, env);
            && step.outcome == Some(RefusalOutcome(p, HOLD, Because("INDEX_NOT_REQUESTED"), None))
            && step.world.index == Removed(w.index, p.documentId, p.candidate.sha256)
            && Touched(w, step.world, id, Gated(ViewOf(w, id), step.outcome.value))
            && !AlreadyQuarantined(step.world.records[id].events)
  {
    var p := w.records[id].prepared;
    var w1 := Log(w, id, PolicyResultReceived(policy));
    assert Judge(p, p, policy, false, env.blob) == KeepOut(Because("INDEX_NOT_REQUESTED"));
    LogStaysCalm(w, id, PolicyResultReceived(policy));
    var outcome := RefusalOutcome(p, HOLD, Because("INDEX_NOT_REQUESTED"), None);
    LogStaysCalm(RemoveCandidate(w1, p, env), id, IndexGateApplied(outcome));
    ApplyTouches(w, id, policy, false, env);
  }

  /** The state an analysis is in when C may approve it. */
  ghost predicate AwaitsApproval(w: World, id: string, policy: PolicyResult)
    requires id in w.records
  {
    var v := ViewOf(w, id);
    && ChainValid(w, id) && !AlreadyQuarantined(w.records[id].events)
    && v.at.state == AWAITING_APPROVAL && v.at.policy == Some(policy) && v.commands == []
  }

  lemma AnswerAwaitsApproval(w: World, id: string, submission: PolicySubmission, env: Surroundings)
    requires id in w.records && w.records[id].prepared.analysisId == id && ChainValid(w, id)
    requires var p := w.records[id].prepared;
             IsClean(p) && Allows(submission.policy, p.candidate.sha256) && IsCalm(env, p.candidate.sha256)
    requires Unanswered(w.records[id].events, submission.requestId) && ViewOf(w, id).commands == []
    ensures var w', p := AcceptResult(w, id, submission, env), w.records[id].prepared;
            && id in w'.records && w'.records[id].prepared == p && w'.config == w.config
            && w'.index == Removed(w.index, p.documentId, p.candidate.sha256)
            && AwaitsApproval(w', id, submission.policy)
  {
    var p := w.records[id].prepared;
    var w1 := Log(w, id, SubmissionReceived(submission));
    LogTouches(w, id, SubmissionReceived(submission));
    LogStaysCalm(w, id, SubmissionReceived(submission));
    AllowIsHeld(w1, id, submission.policy, env);
    var step := ApplyStep(w1, p, submission.policy, false, env);
    LogTouches(step.world, id, SubmissionApplied(submission, step.outcome.value));
    LogStaysCalm(step.world, id, SubmissionApplied(submission, step.outcome.value));
  }

  // ---------------------------------------------------------------- C's approval

  lemma AwaitingIsFresh(w: World, id: string, policy: PolicyResult, command: OperatorCommand)
    requires id in w.records && AwaitsApproval(w, id, policy) && policy.decision == ALLOW
    requires command.action == Approve && command.expectedCandidateSha256 == w.records[id].prepared.candidate.sha256
    ensures IsFresh(w, id, command) && LatestAppliedPolicy(w.records[id].events) == Some(policy)
  {
    PolicyIsLatest(w.records[id].events);
    CompletedIsRead(w.records[id].events, command.idempotencyKey);
  }

  /** An approval that awaits nothing else indexes exactly if the current version is the expected one. */
  lemma ApprovalIndexesExactly(w: World, id: string, policy: PolicyResult, command: OperatorCommand, token: string, env: Surroundings)
    requires WellFormed(w.index) && id in w.records && w.records[id].prepared.analysisId == id && "anl_" + token !in w.records
    requires var p := w.records[id].prepared;
             IsClean(p) && Allows(policy, p.candidate.sha256) && IsCalm(env, p.candidate.sha256) && CandidateVersion(w, p).chunks != []
    requires AwaitsApproval(w, id, policy)
    requires command.action == Approve && command.expectedCandidateSha256 == w.records[id].prepared.candidate.sha256
    ensures var p := w.records[id].prepared; var (w', result) := ExecuteStep(w, id, command, token, env);
            && result.Ok? && result.value.outcome.Some?
            && (result.value.outcome.value.action == INDEX <==> CurrentOf(w.index, p.documentId) == p.expectedCurrent)
            && (CurrentOf(w.index, p.documentId) == p.expectedCurrent ==>
                  w'.index == Stored(w.index, p.documentId, CandidateVersion(w, p)))
  {
    var p := w.records[id].prepared;
    var step := ApplyStep(w, p, policy, true, env);
    AwaitingIsFresh(w, id, policy, command);
    FreshApproval(w, id, command, token, env);
    IndexesExactly(w, p, policy, true, env);
    CalmMayIndexExactly(w, p, policy, env);
    FinishedCalmly(step.world, id, command, step.outcome.value, env);
  }

  lemma CalmMayIndexExactly(w: World, p: PreparedAnalysis, policy: PolicyResult, env: Surroundings)
    requires WellFormed(w.index) && p.analysisId in w.records && w.records[p.analysisId].prepared == p
    requires ChainValid(w, p.analysisId) && !AlreadyQuarantined(w.records[p.analysisId].events)
    requires IsClean(p) && Allows(policy, p.candidate.sha256) && IsCalm(env, p.candidate.sha256) && CandidateVersion(w, p).chunks != []
    ensures MayIndex(w, p, policy, true, env) <==> CurrentOf(w.index, p.documentId) == p.expectedCurrent
  {
  }

  lemma FinishedCalmly(w: World, id: string, command: OperatorCommand, outcome: IndexOutcome, env: Surroundings)
    requires id in w.records && !env.completionFault
    ensures var (w', result) := Finish(w, id, command, outcome, None, env);
            result.Ok? && result.value.outcome == Some(outcome) && w'.index == w.index
  {
  }

  lemma RemovedCurrentExactly(index: Index, document: string, sha: string)
    requires WellFormed(index)
    ensures WellFormed(Removed(index, document, sha))
    ensures CurrentOf(Removed(index, document, sha), document) == CurrentOf(index, document)
       <==> CurrentOf(index, document) != Some(sha)
  {
    RemovedLaws(index, document, sha);
    WithoutLaws(VersionsOf(index, document), sha);
  }

  /** `w1` is the state after preparing, `w2` the one after B's answer: the analysis awaits approval, and
      its digest is out of the index. */
  lemma FirstAnswerAwaits(w: World, w1: World, w2: World, baseline: Snapshot, candidate: Snapshot, changedBy: string,
                          version: nat, token: string, submission: PolicySubmission, env: Surroundings)
    requires "anl_" + token !in w.records
    requires PrepareStep(w, baseline, candidate, changedBy, version, token).1.Ok?
    requires w1 == PrepareStep(w, baseline, candidate, changedBy, version, token).0
    requires w2 == SubmitStep(w1, "anl_" + token, submission, token, env).0
    requires HardBlocking(candidate.artifacts) == [] && IsCalm(env, candidate.sha256)
    requires submission.requestId == "req_" + token && Allows(submission.policy, candidate.sha256)
    ensures var p := NewAnalysis(w, baseline, candidate, changedBy, version, token);
            && IsClean(p) && w2.records.Keys == w.records.Keys + {p.analysisId} && w2.records[p.analysisId].prepared == p
            && w2.config == w.config && w2.index == Removed(w.index, candidate.documentId, candidate.sha256)
            && AwaitsApproval(w2, p.analysisId, submission.policy)
  {
    var p := NewAnalysis(w, baseline, candidate, changedBy, version, token);
    PreparedIsUnanswered(w, p, token);
    SubmitAccepts(w1, p, token, submission, env);
    AnswerAwaitsApproval(w1, p.analysisId, submission, env);
  }

  /** Prepare, submit, approve, in calm surroundings: the command succeeds, and it indexes the candidate
      exactly if the candidate was not the current version of its document to begin with. */
  lemma FirstApprovalIndexesExactly(w: World, w1: World, w2: World, baseline: Snapshot, candidate: Snapshot, changedBy: string,
                                    version: nat, token: string, submission: PolicySubmission, command: OperatorCommand,
                                    token': string, env: Surroundings, env': Surroundings)
    requires WellFormed(w.index) && "anl_" + token !in w.records && token' != token && "anl_" + token' !in w.records
    requires PrepareStep(w, baseline, candidate, changedBy, version, token).1.Ok?
    requires w1 == PrepareStep(w, baseline, candidate, changedBy, version, token).0
    requires w2 == SubmitStep(w1, "anl_" + token, submission, token, env).0
    requires HardBlocking(candidate.artifacts) == [] && IsCalm(env, candidate.sha256) && IsCalm(env', candidate.sha256)
    requires TextSplitter.SplitText(candidate.text, w.config.chunkSize, w.config.chunkOverlap) != []
    requires submission.requestId == "req_" + token && Allows(submission.policy, candidate.sha256)
    requires command.action == Approve && command.expectedCandidateSha256 == candidate.sha256
    ensures "anl_" + token' !in w2.records
    ensures var (w3, result) := ExecuteStep(w2, "anl_" + token, command, token', env');
            && result.Ok? && result.value.outcome.Some?
            && (result.value.outcome.value.action == INDEX <==> CurrentOf(w.index, candidate.documentId) != Some(candidate.sha256))
            && (CurrentOf(w.index, candidate.documentId) != Some(candidate.sha256) ==>
                  CurrentOf(w3.index, candidate.documentId) == Some(candidate.sha256))
  {
    FirstAnswerAwaits(w, w1, w2, baseline, candidate, changedBy, version, token, submission, env);
    IdsDiffer(token, token');
    var p := NewAnalysis(w, baseline, candidate, changedBy, version, token);
    ApprovalAfterAnswer(w, w2, p, submission.policy, command, token', env');
  }

  /** From the state after B's answer. */
  lemma ApprovalAfterAnswer(w: World, w2: World, p: PreparedAnalysis, policy: PolicyResult, command: OperatorCommand,
                            token: string, env: Surroundings)
    requires WellFormed(w.index) && w2.index == Removed(w.index, p.documentId, p.candidate.sha256)
    requires p.analysisId in w2.records && w2.records[p.analysisId].prepared == p && "anl_" + token !in w2.records
    requires IsClean(p) && p.expectedCurrent == CurrentOf(w.index, p.documentId) && CandidateVersion(w2, p).chunks != []
    requires AwaitsApproval(w2, p.analysisId, policy) && Allows(policy, p.candidate.sha256) && IsCalm(env, p.candidate.sha256)
    requires command.action == Approve && command.expectedCandidateSha256 == p.candidate.sha256
    ensures var (w3, result) := ExecuteStep(w2, p.analysisId, command, token, env);
            && result.Ok? && result.value.outcome.Some?
            && (result.value.outcome.value.action == INDEX <==> CurrentOf(w.index, p.documentId) != Some(p.candidate.sha256))
            && (CurrentOf(w.index, p.documentId) != Some(p.candidate.sha256) ==>
                  CurrentOf(w3.index, p.documentId) == Some(p.candidate.sha256))
  {
    RemovedCurrentExactly(w.index, p.documentId, p.candidate.sha256);
    ApprovalIndexesExactly(w2, p.analysisId, policy, command, token, env);
    StoredLaws(w2.index, p.documentId, CandidateVersion(w2, p));
    PromoteLaws(VersionsOf(w2.index, p.documentId), CandidateVersion(w2, p));
  }

  // ---------------------------------------------------------------- a run past the guarantee

  lemma {:induction false} NoCommandNoApproval(events: seq<Event>, sha: string)
    requires Commands(events) == []
    ensures !LogsApproval(events, sha)
  {
    if events != [] {
      var before := events[..|events| - 1];
      NoCommandNoApproval(before, sha);
      forall i | 0 <= i < |events| ensures !ApprovesDigest(events[i].payload, sha) {
        if i < |before| { assert before[i] == events[i]; }
      }
    }
  }

  /** A reachable state where it fails: from every empty gateway, the first approval of a document escapes
      if the write of the completed command fails, or the gate's own write and the removal behind it do. */
  lemma EscapeIsReachable(w: World, baseline: Snapshot, candidate: Snapshot, changedBy: string, token: string,
                          submission: PolicySubmission, command: OperatorCommand, token': string,
                          env: Surroundings, env': Surroundings) returns (ws: seq<World>, steps: seq<Step>)
    requires Initial(w) && token' != token && baseline.documentId == candidate.documentId
    requires HardBlocking(candidate.artifacts) == [] && IsCalm(env, candidate.sha256)
    requires TextSplitter.SplitText(candidate.text, w.config.chunkSize, w.config.chunkOverlap) != []
    requires submission.requestId == "req_" + token && Allows(submission.policy, candidate.sha256)
    requires command.action == Approve && command.expectedCandidateSha256 == candidate.sha256
    requires Strands(env', candidate.sha256)
    ensures IsRun(ws, steps) && ws[0] == w && |steps| == 3
    ensures OnlyApproved(ws[2]) && !OnlyApproved(ws[3])
  {
    var p := NewAnalysis(w, baseline, candidate, changedBy, 1, token);
    var w1, w2, first, second := TakesFirstTwo(w, baseline, candidate, changedBy, token, submission, env);
    IdsDiffer(token, token');
    ws, steps := EscapingRun(w, w1, w2, first, second, p, submission.policy, command, token', env');
  }

  lemma EscapingRun(w: World, w1: World, w2: World, first: Step, second: Step, p: PreparedAnalysis, policy: PolicyResult,
                    command: OperatorCommand, token: string, env: Surroundings) returns (ws: seq<World>, steps: seq<Step>)
    requires Initial(w) && !first.Command? && !second.Command?
    requires Possible(w, first) && w1 == Next(w, first) && Possible(w1, second) && w2 == Next(w1, second)
    requires w2.records.Keys == {p.analysisId} && w2.records[p.analysisId].prepared == p && "anl_" + token !in w2.records
    requires AwaitsApproval(w2, p.analysisId, policy)
    requires IsClean(p) && Allows(policy, p.candidate.sha256) && CandidateVersion(w2, p).chunks != []
    requires CurrentOf(w2.index, p.documentId) == p.expectedCurrent
    requires Strands(env, p.candidate.sha256)
    requires command.action == Approve && command.expectedCandidateSha256 == p.candidate.sha256
    ensures IsRun(ws, steps) && ws[0] == w && |steps| == 3 && OnlyApproved(ws[2]) && !OnlyApproved(ws[3])
  {
    var third := Command(p.analysisId, command, token, env);
    StaysApproved(w, w1, w2, first, second);
    EscapesNow(w2, p, policy, command, token, env);
    ws, steps := FourStates(w, w1, w2, Next(w2, third), first, second, third);
  }

  /** The first two steps, in calm surroundings. */
  lemma ReachesApproval(w: World, baseline: Snapshot, candidate: Snapshot, changedBy: string, token: string,
                        submission: PolicySubmission, env: Surroundings) returns (w1: World, w2: World)
    requires Initial(w) && HardBlocking(candidate.artifacts) == [] && IsCalm(env, candidate.sha256)
    requires submission.requestId == "req_" + token && Allows(submission.policy, candidate.sha256)
    ensures w1 == PrepareStep(w, baseline, candidate, changedBy, 1, token).0
    ensures w2 == SubmitStep(w1, "anl_" + token, submission, token, env).0
    ensures var p := NewAnalysis(w, baseline, candidate, changedBy, 1, token);
            && IsClean(p) && w2.records.Keys == {p.analysisId} && w2.records[p.analysisId].prepared == p
            && w2.config == w.config && CurrentOf(w2.index, p.documentId) == p.expectedCurrent
            && AwaitsApproval(w2, p.analysisId, submission.policy)
  {
    w1 := PrepareStep(w, baseline, candidate, changedBy, 1, token).0;
    w2 := SubmitStep(w1, "anl_" + token, submission, token, env).0;
    FirstAnswerAwaits(w, w1, w2, baseline, candidate, changedBy, 1, token, submission, env);
  }

  /** The first two steps, as steps of a run. */
  lemma TakesFirstTwo(w: World, baseline: Snapshot, candidate: Snapshot, changedBy: string, token: string,
                      submission: PolicySubmission, env: Surroundings) returns (w1: World, w2: World, first: Step, second: Step)
    requires Initial(w) && HardBlocking(candidate.artifacts) == [] && IsCalm(env, candidate.sha256)
    requires TextSplitter.SplitText(candidate.text, w.config.chunkSize, w.config.chunkOverlap) != []
    requires submission.requestId == "req_" + token && Allows(submission.policy, candidate.sha256)
    requires baseline.documentId == candidate.documentId
    ensures !first.Command? && !second.Command?
    ensures Possible(w, first) && w1 == Next(w, first) && Possible(w1, second) && w2 == Next(w1, second)
    ensures var p := NewAnalysis(w, baseline, candidate, changedBy, 1, token);
            && IsClean(p) && w2.records.Keys == {p.analysisId} && w2.records[p.analysisId].prepared == p
            && CandidateVersion(w2, p).chunks != [] && CurrentOf(w2.index, p.documentId) == p.expectedCurrent
            && AwaitsApproval(w2, p.analysisId, submission.policy)
  {
    w1, w2 := ReachesApproval(w, baseline, candidate, changedBy, token, submission, env);
    first, second := Prepare(baseline, candidate, changedBy, 1, token), Submit("anl_" + token, submission, token, env);
    StepsTaken(w, w1, w2, baseline, candidate, changedBy, token, submission, env);
  }

  lemma StepsTaken(w: World, w1: World, w2: World, baseline: Snapshot, candidate: Snapshot, changedBy: string, token: string,
                   submission: PolicySubmission, env: Surroundings)
    requires Initial(w) && baseline.documentId == candidate.documentId && submission.policy.Valid()
    requires w1 == PrepareStep(w, baseline, candidate, changedBy, 1, token).0
    requires w2 == SubmitStep(w1, "anl_" + token, submission, token, env).0
    ensures var first, second := Prepare(baseline, candidate, changedBy, 1, token), Submit("anl_" + token, submission, token, env);
            Possible(w, first) && w1 == Next(w, first) && Possible(w1, second) && w2 == Next(w1, second)
  {
  }

  lemma StaysApproved(w: World, w1: World, w2: World, first: Step, second: Step)
    requires Initial(w) && !first.Command? && !second.Command?
    requires Possible(w, first) && w1 == Next(w, first) && Possible(w1, second) && w2 == Next(w1, second)
    ensures OnlyApproved(w2)
  {
    NothingStoredYet(w);
    NextKeepsApproved(w, first);
    NextKeepsApproved(w1, second);
  }

  lemma EscapesNow(w: World, p: PreparedAnalysis, policy: PolicyResult, command: OperatorCommand, token: string, env: Surroundings)
    requires OnlyApproved(w) && w.records.Keys == {p.analysisId} && w.records[p.analysisId].prepared == p && "anl_" + token !in w.records
    requires AwaitsApproval(w, p.analysisId, policy)
    requires IsClean(p) && Allows(policy, p.candidate.sha256) && CandidateVersion(w, p).chunks != []
    requires CurrentOf(w.index, p.documentId) == p.expectedCurrent
    requires Strands(env, p.candidate.sha256)
    requires command.action == Approve && command.expectedCandidateSha256 == p.candidate.sha256
    ensures Possible(w, Command(p.analysisId, command, token, env))
    ensures !OnlyApproved(Next(w, Command(p.analysisId, command, token, env)))
  {
    EscapesHere(w, p.analysisId, policy, command, token, env);
    NextKeepsApproved(w, Command(p.analysisId, command, token, env));
  }

  lemma FourStates(w: World, w1: World, w2: World, w3: World, first: Step, second: Step, third: Step)
    returns (ws: seq<World>, steps: seq<Step>)
    requires Initial(w) && Possible(w, first) && w1 == Next(w, first)
    requires Possible(w1, second) && w2 == Next(w1, second) && Possible(w2, third) && w3 == Next(w2, third)
    ensures IsRun(ws, steps) && |steps| == 3 && ws[0] == w && ws[2] == w2 && ws[3] == w3
  {
    ws, steps := OneMore([w], [], w1, first);
    ws, steps := OneMore(ws, steps, w2, second);
    ws, steps := OneMore(ws, steps, w3, third);
  }

  lemma OneMore(ws: seq<World>, steps: seq<Step>, w': World, step: Step) returns (ws': seq<World>, steps': seq<Step>)
    requires IsRun(ws, steps) && Possible(ws[|steps|], step) && w' == Next(ws[|steps|], step)
    ensures IsRun(ws', steps') && |steps'| == |steps| + 1 && ws'[|steps'|] == w' && forall i | 0 <= i < |ws| :: ws'[i] == ws[i]
  {
    ws', steps' := ws + [w'], steps + [step];
    forall i | 0 <= i < |steps'| ensures Possible(ws'[i], steps'[i]) && ws'[i + 1] == Next(ws'[i], steps'[i]) {
      if i < |steps| { TakesStep(ws, steps, i); }
    }
  }

  lemma NothingStoredYet(w: World)
    requires Initial(w)
    ensures OnlyApproved(w)
  {
  }

  lemma EscapesHere(w: World, id: string, policy: PolicyResult, command: OperatorCommand, token: string, env: Surroundings)
    requires WellFormed(w.index) && w.records.Keys == {id} && w.records[id].prepared.analysisId == id && "anl_" + token !in w.records
    requires AwaitsApproval(w, id, policy)
    requires var p := w.records[id].prepared;
             && IsClean(p) && Allows(policy, p.candidate.sha256) && CandidateVersion(w, p).chunks != []
             && CurrentOf(w.index, p.documentId) == p.expectedCurrent
             && Strands(env, p.candidate.sha256)
    requires command.action == Approve && command.expectedCandidateSha256 == w.records[id].prepared.candidate.sha256
    ensures Escapes(w, id, command, token, env)
  {
    var p := w.records[id].prepared;
    NoCommandNoApproval(w.records[id].events, p.candidate.sha256);
    AwaitingIsFresh(w, id, policy, command);
    FreshIndexesExactly(w, id, command, token, Calm(env));
    NoneApproved(w, id, p.documentId, p.candidate.sha256);
  }

  lemma NoneApproved(w: World, id: string, document: string, sha: string)
    requires w.records.Keys == {id} && !LogsApproval(w.records[id].events, sha)
    ensures !Approved(w, document, sha)
  {
  }

  lemma IdsDiffer(a: string, b: string)
    requires a != b
    ensures "anl_" + a != "anl_" + b
  {
    assert ("anl_" + a)[4..] == a && ("anl_" + b)[4..] == b;
  }

  /** B's first answer to the request that preparing made is accepted. */
  lemma SubmitAccepts(w: World, p: PreparedAnalysis, token: string, submission: PolicySubmission, env: Surroundings)
    requires p.analysisId in w.records && w.records[p.analysisId].prepared == p
    requires ViewOf(w, p.analysisId) == FirstView(p, token) && Unanswered(w.records[p.analysisId].events, "req_" + token)
    requires submission.requestId == "req_" + token && submission.policy.candidateSha256 == Some(p.candidate.sha256)
    ensures var w' := SubmitStep(w, p.analysisId, submission, token, env).0;
            w' == AcceptResult(w, p.analysisId, submission, env) && w'.records.Keys == w.records.Keys
  {
  }
}
