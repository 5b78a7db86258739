/** Only approved content is ever indexed, on every run, guarded or not. */
module ApprovalSafety {
  import opened Wrappers
  import opened Contracts
  import opened VersionedIndex
  import opened Gate
  import opened GateLaws
  import opened Operations
  import opened Runs
  import SqliteIndexer

  ghost predicate AllowsDigest(payload: Payload, sha: string) {
    && payload.SubmissionApplied? && payload.submission.policy.decision == ALLOW
    && payload.submission.policy.indexAction == INDEX && payload.submission.policy.candidateSha256 == Some(sha)
  }

  ghost predicate ApprovesDigest(payload: Payload, sha: string) {
    payload.CommandCompleted? && payload.command.action == Approve && payload.command.expectedCandidateSha256 == sha
  }

  ghost predicate LogsAllow(events: seq<Event>, sha: string) {
    exists i :: 0 <= i < |events| && AllowsDigest(events[i].payload, sha)
  }

  ghost predicate LogsApproval(events: seq<Event>, sha: string) {
    exists i :: 0 <= i < |events| && ApprovesDigest(events[i].payload, sha)
  }

  /** The analysis is of this document and digest, B allowed it and C approved it. */
  ghost predicate ApprovedBy(r: Record, document: string, sha: string) {
    && r.prepared.documentId == document && r.prepared.candidate.sha256 == sha
    && LogsAllow(r.events, sha) && LogsApproval(r.events, sha)
  }

  ghost predicate Approved(w: World, document: string, sha: string) {
    exists id :: id in w.records && ApprovedBy(w.records[id], document, sha)
  }

  ghost predicate Stores(index: Index, document: string, sha: string) {
    Holds(VersionsOf(index, document), sha)
  }

  ghost predicate OnlyApproved(w: World) {
    && WellFormed(w.index)
    && forall document, sha | Stores(w.index, document, sha) :: Approved(w, document, sha)
  }

  lemma RecordGrowsApproved(r: Record, r': Record, document: string, sha: string)
    requires RecordGrows(r, r') && ApprovedBy(r, document, sha)
    ensures ApprovedBy(r', document, sha)
  {
    var n := |r.events|;
    var i :| 0 <= i < n && AllowsDigest(r.events[i].payload, sha);
    var j :| 0 <= j < n && ApprovesDigest(r.events[j].payload, sha);
    assert r'.events[i] == r'.events[..n][i] && r'.events[j] == r'.events[..n][j];
  }

  lemma ApprovalLasts(w: World, w': World, document: string, sha: string)
    requires Grows(w, w') && Approved(w, document, sha)
    ensures Approved(w', document, sha)
  {
    var id :| id in w.records && ApprovedBy(w.records[id], document, sha);
    RecordGrowsApproved(w.records[id], w'.records[id], document, sha);
  }

  /** The second index stores nothing that the first does not. */
  ghost predicate StoresAtMost(index: Index, index': Index) {
    forall document, sha {:trigger Stores(index', document, sha)} :: Stores(index', document, sha) ==> Stores(index, document, sha)
  }

  /** The same but for one digest. */
  ghost predicate AddsAtMost(index: Index, index': Index, document: string, sha: string) {
    forall d, s {:trigger Stores(index', d, s)} :: Stores(index', d, s) ==> Stores(index, d, s) || (d == document && s == sha)
  }

  /** Approvals are never lost, so a step that stores nothing unapproved keeps the guarantee. */
  lemma ApprovalsLast(w: World, w': World)
    requires OnlyApproved(w) && Grows(w, w') && WellFormed(w'.index) && StoresAtMost(w.index, w'.index)
    ensures OnlyApproved(w')
  {
    forall document, sha | Stores(w'.index, document, sha) ensures Approved(w', document, sha) {
      ApprovalLasts(w, w', document, sha);
    }
  }

  lemma OneMoreApproved(w: World, w': World, document: string, sha: string)
    requires OnlyApproved(w) && Grows(w, w') && WellFormed(w'.index) && AddsAtMost(w.index, w'.index, document, sha)
    requires Approved(w', document, sha)
    ensures OnlyApproved(w')
  {
    forall d, s | Stores(w'.index, d, s) ensures Approved(w', d, s) {
      if Stores(w.index, d, s) { ApprovalLasts(w, w', d, s); }
    }
  }

  lemma RemovedStoresLess(index: Index, document: string, sha: string)
    requires WellFormed(index)
    ensures WellFormed(Removed(index, document, sha)) && StoresAtMost(index, Removed(index, document, sha))
  {
    RemovedLaws(index, document, sha);
    WithoutLaws(VersionsOf(index, document), sha);
  }

  lemma StoredStoresOneMore(index: Index, document: string, version: Version)
    requires WellFormed(index)
    ensures WellFormed(Stored(index, document, version))
    ensures AddsAtMost(index, Stored(index, document, version), document, version.sha)
  {
    StoredLaws(index, document, version);
    PromoteLaws(VersionsOf(index, document), version);
  }

  lemma TakenBackStoresLess(index: Index, document: string, version: Version)
    requires WellFormed(index)
    ensures StoresAtMost(index, Removed(Stored(index, document, version), document, version.sha))
  {
    var index1 := Stored(index, document, version);
    StoredStoresOneMore(index, document, version);
    RemovedStoresLess(index1, document, version.sha);
    RemovedLaws(index1, document, version.sha);
    WithoutLaws(VersionsOf(index1, document), version.sha);
  }

  lemma HoldStoresLess(w: World, p: PreparedAnalysis, code: string, env: Surroundings)
    requires WellFormed(w.index)
    ensures WellFormed(HoldStep(w, p, code, env).world.index) && StoresAtMost(w.index, HoldStep(w, p, code, env).world.index)
  {
    RemovedStoresLess(w.index, p.documentId, p.candidate.sha256);
  }

  /** A call of the gate stores at most its own candidate, and that only for a bound ALLOW it was
      asked to index. If it raises after storing, it takes the candidate back unless that fails too. */
  ghost predicate GateStores(index: Index, step: GateStep, p: PreparedAnalysis, removes: bool) {
    && WellFormed(step.world.index)
    && AddsAtMost(index, step.world.index, p.documentId, p.candidate.sha256)
    && (step.outcome.None? && removes ==> StoresAtMost(index, step.world.index))
  }

  lemma ApplyStores(w: World, p: PreparedAnalysis, policy: PolicyResult, indexIfAllowed: bool, env: Surroundings)
    requires WellFormed(w.index)
    ensures var step := ApplyStep(w, p, policy, indexIfAllowed, env);
            && GateStores(w.index, step, p, env.removeFault.None?)
            && (!indexIfAllowed || policy.candidateSha256 != Some(p.candidate.sha256) ==> StoresAtMost(w.index, step.world.index))
  {
    if IsAdmitted(w, p, policy, indexIfAllowed, env) {
      var w1 := Log(w, p.analysisId, PolicyResultReceived(policy));
      JudgeAdmits(w.records[p.analysisId].prepared, p, policy, indexIfAllowed, env.blob);
      AdmitStores(w1, p, env);
    } else {
      RemovedStoresLess(w.index, p.documentId, p.candidate.sha256);
      NotAdmittedLeaves(w, p, policy, indexIfAllowed, env);
    }
  }

  ghost predicate IsAdmitted(w: World, p: PreparedAnalysis, policy: PolicyResult, indexIfAllowed: bool, env: Surroundings) {
    && policy.Valid() && p.analysisId in w.records && ChainValid(w, p.analysisId)
    && !AlreadyQuarantined(w.records[p.analysisId].events)
    && Judge(w.records[p.analysisId].prepared, p, policy, indexIfAllowed, env.blob).Admit?
  }

  lemma NotAdmittedLeaves(w: World, p: PreparedAnalysis, policy: PolicyResult, indexIfAllowed: bool, env: Surroundings)
    requires !IsAdmitted(w, p, policy, indexIfAllowed, env)
    ensures var step := ApplyStep(w, p, policy, indexIfAllowed, env);
            step.outcome.Some? && step.world.index in {w.index, Removed(w.index, p.documentId, p.candidate.sha256)}
  {
  }

  lemma AdmitStores(w: World, p: PreparedAnalysis, env: Surroundings)
    requires WellFormed(w.index) && p.candidate.documentId == p.documentId && p.analysisId in w.records
    ensures GateStores(w.index, AdmitStep(w, p, env), p, env.removeFault.None?)
  {
    var document, version := p.documentId, CandidateVersion(w, p);
    var stored := Stored(w.index, document, version);
    AdmitIndexes(w, p, env);
    StoredStoresOneMore(w.index, document, version);
    RemovedStoresLess(w.index, document, version.sha);
    RemovedStoresLess(stored, document, version.sha);
    TakenBackStoresLess(w.index, document, version);
  }

  /** The indexes an admission can leave behind. */
  lemma AdmitIndexes(w: World, p: PreparedAnalysis, env: Surroundings)
    requires p.candidate.documentId == p.documentId && p.analysisId in w.records
    ensures LeavesBehind(w, p, env, AdmitStep(w, p, env))
  {
    var version := CandidateVersion(w, p);
    var indexed := w.(index := Stored(w.index, p.documentId, version));
    var result := SqliteIndexer.IndexResult(
      p.documentId, p.candidate.sha256, version.chunks, SqliteIndexer.Expect(p.expectedCurrent),
      CurrentOf(w.index, p.documentId), env.writeFault);
    match result {
      case Err(StaleBaseline) => DenyLeaves(w, p, Because("STALE_BASELINE_VERSION"), false, env);
      case Err(error) => DenyLeaves(w, p, Reason("INDEXER_ERROR", {ErrorName(error)}, None), true, env);
      case Ok(own) => DenyLeaves(indexed, p, Because("INVALID_INDEX_RECEIPT"), true, env);
    }
  }

  ghost predicate LeavesBehind(w: World, p: PreparedAnalysis, env: Surroundings, step: GateStep) {
    var stored := Stored(w.index, p.documentId, CandidateVersion(w, p));
    || step.world.index == w.index
    || step.world.index == Removed(w.index, p.documentId, p.candidate.sha256)
    || step.world.index == Removed(stored, p.documentId, p.candidate.sha256)
    || (step.world.index == stored && (step.outcome.Some? || env.removeFault.Some?))
  }

  lemma DenyLeaves(w: World, p: PreparedAnalysis, reason: Reason, remove: bool, env: Surroundings)
    ensures var step := Deny(w, p, reason, true, remove, env);
            step.world.index == if remove && env.removeFault.None? then Removed(w.index, p.documentId, p.candidate.sha256) else w.index
  {
  }

  /** The policy an approval acts on stands in the log. */
  lemma {:induction false} LatestPolicyIsLogged(events: seq<Event>)
    requires LatestAppliedPolicy(events).Some?
    ensures exists i :: 0 <= i < |events| && events[i].payload.SubmissionApplied?
                        && events[i].payload.submission.policy == LatestAppliedPolicy(events).value
  {
    var n := |events| - 1;
    if events[n].payload.SubmissionApplied? {
    } else {
      LatestPolicyIsLogged(events[..n]);
      var i :| 0 <= i < n && events[..n][i].payload.SubmissionApplied?
               && events[..n][i].payload.submission.policy == LatestAppliedPolicy(events).value;
      assert events[i] == events[..n][i];
    }
  }

  lemma AcceptStoresLess(w: World, id: string, submission: PolicySubmission, env: Surroundings)
    requires WellFormed(w.index) && id in w.records
    ensures var index' := AcceptResult(w, id, submission, env).index; WellFormed(index') && StoresAtMost(w.index, index')
  {
    var w1 := if ReceivedSubmission(w.records[id].events, submission.requestId).None?
              then Log(w, id, SubmissionReceived(submission)) else w;
    ApplyStores(w1, w.records[id].prepared, submission.policy, false, env);
  }

  lemma SubmitKeepsApproved(w: World, id: string, submission: PolicySubmission, token: string, env: Surroundings)
    requires OnlyApproved(w)
    ensures OnlyApproved(SubmitStep(w, id, submission, token, env).0)
  {
    SubmitGrows(w, id, submission, token, env);
    if id in w.records {
      var w1 := EnsureRequest(w, id, token).0;
      AcceptStoresLess(w1, id, submission, env);
      SubmitIsAccept(w, id, submission, token, env);
      KeepsApproved(w, w1, AcceptResult(w1, id, submission, env), SubmitStep(w, id, submission, token, env).0);
    }
  }

  lemma KeepsApproved(w: World, w1: World, w2: World, w': World)
    requires OnlyApproved(w) && Grows(w, w') && w' in {w, w1, w2}
    requires w1.index == w.index && WellFormed(w2.index) && StoresAtMost(w.index, w2.index)
    ensures OnlyApproved(w')
  {
    ApprovalsLast(w, w');
  }

  /** A completed approval has logged what the index stores since. */
  lemma CompletedApproval(w: World, id: string, command: OperatorCommand, token: string, env: Surroundings)
    requires OnlyApproved(w) && "anl_" + token !in w.records && IsFreshApproval(w, id, command)
    requires ApprovalStep(w, id, env).outcome.Some? && !env.completionFault
    ensures OnlyApproved(ExecuteStep(w, id, command, token, env).0)
  {
    var p, events := w.records[id].prepared, w.records[id].events;
    var policy, step := LatestAppliedPolicy(events).value, ApprovalStep(w, id, env);
    var w' := ExecuteStep(w, id, command, token, env).0;
    FreshApproval(w, id, command, token, env);
    ExecuteGrows(w, id, command, token, env);
    ApplyStores(w, p, policy, true, env);
    if policy.candidateSha256 == Some(p.candidate.sha256) {
      assert RecordGrows(w.records[id], w'.records[id]);
      CompletedIsApproved(w, w', id, command, policy);
      OneMoreApproved(w, w', p.documentId, p.candidate.sha256);
    } else {
      ApprovalsLast(w, w');
    }
  }

  lemma CompletedIsApproved(w: World, w': World, id: string, command: OperatorCommand, policy: PolicyResult)
    requires IsFreshApproval(w, id, command) && LatestAppliedPolicy(w.records[id].events) == Some(policy)
    requires id in w'.records && RecordGrows(w.records[id], w'.records[id])
    requires policy.candidateSha256 == Some(w.records[id].prepared.candidate.sha256)
    requires var events' := w'.records[id].events;
             events' != [] && events'[|events'| - 1].payload.CommandCompleted? && events'[|events'| - 1].payload.command == command
    ensures Approved(w', w.records[id].prepared.documentId, w.records[id].prepared.candidate.sha256)
  {
    var p, events, events' := w.records[id].prepared, w.records[id].events, w'.records[id].events;
    LatestPolicyIsLogged(events);
    var i :| 0 <= i < |events| && events[i].payload.SubmissionApplied? && events[i].payload.submission.policy == policy;
    LogsBoth(events, events', i, p.candidate.sha256);
    assert ApprovedBy(w'.records[id], p.documentId, p.candidate.sha256);
  }

  lemma LogsBoth(events: seq<Event>, events': seq<Event>, i: nat, sha: string)
    requires i < |events| <= |events'| && events'[..|events|] == events
    requires AllowsDigest(events[i].payload, sha) && ApprovesDigest(events'[|events'| - 1].payload, sha)
    ensures LogsAllow(events', sha) && LogsApproval(events', sha)
  {
    assert events'[i] == events'[..|events|][i];
  }

  /** What the gate does with an approval. */
  ghost function ApprovalStep(w: World, id: string, env: Surroundings): GateStep
    requires id in w.records && LatestAppliedPolicy(w.records[id].events).Some?
  {
    ApplyStep(w, w.records[id].prepared, LatestAppliedPolicy(w.records[id].events).value, true, env)
  }

  // ---------------------------------------------------------------- approvals that are not recorded

  /** The surroundings without the faults behind an indexing. */
  function Calm(env: Surroundings): Surroundings {
    env.(receipt := None, auditFault := false, completionFault := false)
  }

  predicate IsMisfit(env: Surroundings, p: PreparedAnalysis) {
    env.receipt.Some? && !ReceiptFits(env.receipt.value, p)
  }

  /** What was indexed stays in the index: nothing took it back, or taking it back failed. */
  predicate Remains(env: Surroundings, p: PreparedAnalysis) {
    IsMisfit(env, p) || env.auditFault ==> env.removeFault.Some?
  }

  /** No completed command is recorded behind an indexing: one of the two writes raised. */
  predicate IsUnlogged(env: Surroundings, p: PreparedAnalysis) {
    env.completionFault || (env.auditFault && !IsMisfit(env, p))
  }

  /** An admission that was not due leaves at most a removal behind. */
  lemma NotDueAdmits(w: World, p: PreparedAnalysis, env: Surroundings)
    requires p.analysisId in w.records && p.candidate.documentId == p.documentId && !Admissible(w, p, Calm(env))
    ensures AdmitStep(w, p, env).outcome.Some?
    ensures AdmitStep(w, p, env).world.index in {w.index, Removed(w.index, p.documentId, p.candidate.sha256)}
  {
  }

  /** An admission that was due leaves the candidate behind unless it is taken back. */
  lemma DueAdmits(w: World, p: PreparedAnalysis, env: Surroundings)
    requires p.analysisId in w.records && p.candidate.documentId == p.documentId && Admissible(w, p, Calm(env))
    ensures AdmitStep(w, p, env).outcome.None? <==> env.auditFault && !IsMisfit(env, p)
    ensures var stored := Stored(w.index, p.documentId, CandidateVersion(w, p));
            AdmitStep(w, p, env).world.index
            == if Remains(env, p) then stored else Removed(stored, p.documentId, p.candidate.sha256)
  {
  }

  /** What an admission leaves in the index, and when it raises. */
  lemma AdmitStoresExactly(w: World, p: PreparedAnalysis, env: Surroundings)
    requires WellFormed(w.index) && p.analysisId in w.records && p.candidate.documentId == p.documentId
    ensures StoresExactly(w, AdmitStep(w, p, env), p, env, Admissible(w, p, Calm(env)))
  {
    if Admissible(w, p, Calm(env)) {
      DueAdmits(w, p, env);
      TakenBackStoresLess(w.index, p.documentId, CandidateVersion(w, p));
    } else {
      NotDueAdmits(w, p, env);
      RemovedStoresLess(w.index, p.documentId, p.candidate.sha256);
    }
  }

  ghost predicate StoresExactly(w: World, step: GateStep, p: PreparedAnalysis, env: Surroundings, due: bool) {
    && (step.outcome.None? <==> due && env.auditFault && !IsMisfit(env, p))
    && if due && Remains(env, p) then step.world.index == Stored(w.index, p.documentId, CandidateVersion(w, p))
       else StoresAtMost(w.index, step.world.index)
  }

  lemma ApplyStoresExactly(w: World, p: PreparedAnalysis, policy: PolicyResult, indexIfAllowed: bool, env: Surroundings)
    requires WellFormed(w.index)
    ensures StoresExactly(w, ApplyStep(w, p, policy, indexIfAllowed, env), p, env, MayIndex(w, p, policy, indexIfAllowed, Calm(env)))
  {
    if IsAdmitted(w, p, policy, indexIfAllowed, env) {
      var w1 := Log(w, p.analysisId, PolicyResultReceived(policy));
      assert CandidateVersion(w1, p) == CandidateVersion(w, p);
      JudgeAdmits(w.records[p.analysisId].prepared, p, policy, indexIfAllowed, env.blob);
      AdmitStoresExactly(w1, p, env);
      assert Admissible(w1, p, Calm(env)) <==> Admissible(w, p, Calm(env));
    } else {
      RemovedStoresLess(w.index, p.documentId, p.candidate.sha256);
      NotAdmittedLeaves(w, p, policy, indexIfAllowed, env);
      NotAdmittedIsNotDue(w, p, policy, indexIfAllowed, env);
    }
  }

  lemma NotAdmittedIsNotDue(w: World, p: PreparedAnalysis, policy: PolicyResult, indexIfAllowed: bool, env: Surroundings)
    requires WellFormed(w.index) && !IsAdmitted(w, p, policy, indexIfAllowed, env)
    ensures !MayIndex(w, p, policy, indexIfAllowed, Calm(env))
  {
    if policy.Valid() && p.analysisId in w.records {
      JudgeAdmits(w.records[p.analysisId].prepared, p, policy, indexIfAllowed, env.blob);
    }
  }

  /** The gate raises exactly if the audit write fails behind an indexing that was due and well received. */
  lemma RaisesExactly(w: World, p: PreparedAnalysis, policy: PolicyResult, indexIfAllowed: bool, env: Surroundings)
    requires WellFormed(w.index)
    ensures ApplyStep(w, p, policy, indexIfAllowed, env).outcome.None?
       <==> env.auditFault && !IsMisfit(env, p) && MayIndex(w, p, policy, indexIfAllowed, Calm(env))
  {
    ApplyStoresExactly(w, p, policy, indexIfAllowed, env);
  }

  /** What the gate records approves nothing. */
  lemma GateApprovesNothing(w: World, w': World, document: string, sha: string)
    requires GrowsQuietly(w, w', true) && Approved(w', document, sha)
    ensures Approved(w, document, sha)
  {
    var id :| id in w'.records && ApprovedBy(w'.records[id], document, sha);
    assert AddsQuietly(w, w', id, true);
    var events' := w'.records[id].events;
    var i :| 0 <= i < |events'| && AllowsDigest(events'[i].payload, sha);
    var j :| 0 <= j < |events'| && ApprovesDigest(events'[j].payload, sha);
    assert id in w.records && RecordGrows(w.records[id], w'.records[id]);
    var events := w.records[id].events;
    assert events'[i] == events'[..|events|][i] && events'[j] == events'[..|events|][j];
    assert AllowsDigest(events[i].payload, sha) && ApprovesDigest(events[j].payload, sha);
    assert ApprovedBy(w.records[id], document, sha);
  }

  /** An approval that would index in calm surroundings: it stays in the index, no completed command is
      recorded, and the digest was not approved for the document before. */
  ghost predicate Escapes(w: World, id: string, command: OperatorCommand, token: string, env: Surroundings) {
    && ApprovalIndexes(w, id, command, token, Calm(env))
    && Remains(env, w.records[id].prepared) && IsUnlogged(env, w.records[id].prepared)
    && !Approved(w, w.records[id].prepared.documentId, w.records[id].prepared.candidate.sha256)
  }

  /** An approval that is not recorded keeps the guarantee exactly if it left nothing unapproved behind. */
  lemma UnloggedApproval(w: World, id: string, command: OperatorCommand, token: string, env: Surroundings)
    requires OnlyApproved(w) && "anl_" + token !in w.records && IsFreshApproval(w, id, command)
    requires ApprovalStep(w, id, env).outcome.None? || env.completionFault
    ensures OnlyApproved(ExecuteStep(w, id, command, token, env).0) <==> !LeavesUnapproved(w, id, env)
  {
    var p, policy := w.records[id].prepared, LatestAppliedPolicy(w.records[id].events).value;
    FreshApproval(w, id, command, token, env);
    ApplyGrows(w, p, policy, true, env);
    ApplyStores(w, p, policy, true, env);
    ApplyStoresExactly(w, p, policy, true, env);
    UnloggedStep(w, ApprovalStep(w, id, env), p, LeavesUnapproved(w, id, env), MayIndex(w, p, policy, true, Calm(env)) && Remains(env, p));
  }

  ghost predicate LeavesUnapproved(w: World, id: string, env: Surroundings)
    requires WellFormed(w.index) && id in w.records && LatestAppliedPolicy(w.records[id].events).Some?
  {
    var p, policy := w.records[id].prepared, LatestAppliedPolicy(w.records[id].events).value;
    MayIndex(w, p, policy, true, Calm(env)) && Remains(env, p) && !Approved(w, p.documentId, p.candidate.sha256)
  }

  lemma UnloggedStep(w: World, step: GateStep, p: PreparedAnalysis, leaves: bool, stays: bool)
    requires OnlyApproved(w) && GrowsQuietly(w, step.world, true) && WellFormed(step.world.index)
    requires leaves <==> stays && !Approved(w, p.documentId, p.candidate.sha256)
    requires if stays then step.world.index == Stored(w.index, p.documentId, CandidateVersion(w, p))
             else StoresAtMost(w.index, step.world.index)
    ensures OnlyApproved(step.world) <==> !leaves
  {
    var version := CandidateVersion(w, p);
    if !stays {
      ApprovalsLast(w, step.world);
    } else {
      StoredStoresOneMore(w.index, p.documentId, version);
      PromoteLaws(VersionsOf(w.index, p.documentId), version);
      if Approved(w, p.documentId, p.candidate.sha256) {
        ApprovalLasts(w, step.world, p.documentId, p.candidate.sha256);
        OneMoreApproved(w, step.world, p.documentId, p.candidate.sha256);
      } else if OnlyApproved(step.world) {
        assert Stores(step.world.index, p.documentId, p.candidate.sha256);
        GateApprovesNothing(w, step.world, p.documentId, p.candidate.sha256);
      }
    }
  }

  /** An approval keeps the guarantee exactly unless it escapes it. */
  lemma ApproveKeepsExactly(w: World, id: string, command: OperatorCommand, token: string, env: Surroundings)
    requires OnlyApproved(w) && "anl_" + token !in w.records && id in w.records && command.action == Approve
    ensures OnlyApproved(ExecuteStep(w, id, command, token, env).0) <==> !Escapes(w, id, command, token, env)
  {
    if ApprovalIndexes(w, id, command, token, Calm(env)) {
      IndexingIsFresh(w, id, command, token, Calm(env));
    }
    if IsFreshApproval(w, id, command) {
      FreshIndexesExactly(w, id, command, token, Calm(env));
      RaisesExactly(w, w.records[id].prepared, LatestAppliedPolicy(w.records[id].events).value, true, env);
      if ApprovalStep(w, id, env).outcome.Some? && !env.completionFault {
        CompletedApproval(w, id, command, token, env);
      } else {
        UnloggedApproval(w, id, command, token, env);
      }
    } else {
      NotFreshChangesNothing(w, id, command, token, env);
    }
  }

  lemma NotFreshChangesNothing(w: World, id: string, command: OperatorCommand, token: string, env: Surroundings)
    requires "anl_" + token !in w.records && id in w.records && command.action == Approve && !IsFreshApproval(w, id, command)
    ensures ExecuteStep(w, id, command, token, env).0 == w
  {
  }

  lemma HoldKeepsApproved(w: World, id: string, command: OperatorCommand, token: string, env: Surroundings)
    requires OnlyApproved(w) && "anl_" + token !in w.records && id in w.records && command.action != Approve
    ensures OnlyApproved(ExecuteStep(w, id, command, token, env).0)
  {
    ExecuteGrows(w, id, command, token, env);
    HoldLeavesIndex(w, id, command, token, env);
    HoldStoresLess(w, w.records[id].prepared, "OPERATOR_HOLD", env);
    HoldStoresLess(w, w.records[id].prepared, "OPERATOR_REANALYZE_HOLD", env);
    ApprovalsLast(w, ExecuteStep(w, id, command, token, env).0);
  }

  /** Neither a new attempt nor the recording of the command touches the index. */
  lemma HoldLeavesIndex(w: World, id: string, command: OperatorCommand, token: string, env: Surroundings)
    requires "anl_" + token !in w.records && id in w.records && command.action != Approve
    ensures var p, index' := w.records[id].prepared, ExecuteStep(w, id, command, token, env).0.index;
            || index' == w.index
            || index' == HoldStep(w, p, "OPERATOR_HOLD", env).world.index
            || index' == HoldStep(w, p, "OPERATOR_REANALYZE_HOLD", env).world.index
  {
  }

  /** The one way past the guarantee: see `Escapes`. */
  ghost predicate StepEscapes(w: World, step: Step) {
    step.Command? && step.id in w.records && step.command.action == Approve
    && Escapes(w, step.id, step.command, step.token, step.env)
  }

  lemma DispatchKeepsApproved(w: World, id: string, answer: Option<PolicySubmission>, token: string, env: Surroundings)
    requires OnlyApproved(w)
    ensures OnlyApproved(DispatchStep(w, id, answer, token, env).0)
  {
    if id in w.records {
      var (w1, request) := EnsureRequest(w, id, token);
      var w2 := Log(w1, id, DispatchStarted(request.requestId));
      EnsureGrows(w, id, token);
      Logged(w1, id, DispatchStarted(request.requestId));
      GrowsTransitive(w, w1, w2);
      ApprovalsLast(w, w2);
      if answer.Some? {
        SubmitKeepsApproved(w2, id, answer.value, token, env);
      } else {
        DispatchGrows(w, id, answer, token, env);
        ApprovalsLast(w, DispatchStep(w, id, answer, token, env).0);
      }
    }
  }

  /** Every step keeps the guarantee, exactly unless it escapes it. */
  lemma NextKeepsApproved(w: World, step: Step)
    requires OnlyApproved(w) && Possible(w, step)
    ensures OnlyApproved(Next(w, step)) <==> !StepEscapes(w, step)
  {
    match step
    case Submit(id, submission, token, env) => SubmitKeepsApproved(w, id, submission, token, env);
    case Dispatch(id, answer, token, env) => DispatchKeepsApproved(w, id, answer, token, env);
    case Command(id, command, token, env) =>
      if id in w.records {
        if command.action == Approve {
          ApproveKeepsExactly(w, id, command, token, env);
        } else {
          HoldKeepsApproved(w, id, command, token, env);
        }
      }
    case _ =>
      NextGrows(w, step);
      ApprovalsLast(w, Next(w, step));
  }

  /** On every run: up to any state each stored version has an analysis of its document whose log holds
      B's applied ALLOW + INDEX for that digest and C's approval naming it, exactly if no step escaped. */
  lemma {:induction false} OnlyApprovedIsIndexed(ws: seq<World>, steps: seq<Step>, n: nat)
    requires IsRun(ws, steps) && n < |ws|
    ensures ApprovedUpTo(ws, n) <==> NoneEscapes(ws, steps, n)
  {
    if n > 0 {
      OnlyApprovedIsIndexed(ws, steps, n - 1);
      OneStepFurther(ws, steps, n - 1);
    }
  }

  lemma OneStepFurther(ws: seq<World>, steps: seq<Step>, n: nat)
    requires IsRun(ws, steps) && n < |steps|
    ensures OnlyApproved(ws[n]) ==> (OnlyApproved(ws[n + 1]) <==> !StepEscapes(ws[n], steps[n]))
  {
    var w, step := ws[n], steps[n];
    TakesStep(ws, steps, n);
    if OnlyApproved(w) { NextKeepsApproved(w, step); }
  }

  ghost predicate ApprovedUpTo(ws: seq<World>, n: nat)
    requires n < |ws|
  {
    OnlyApproved(ws[n]) && (n > 0 ==> ApprovedUpTo(ws, n - 1))
  }

  ghost predicate NoneEscapes(ws: seq<World>, steps: seq<Step>, n: nat)
    requires n <= |steps| < |ws|
  {
    n > 0 ==> !StepEscapes(ws[n - 1], steps[n - 1]) && NoneEscapes(ws, steps, n - 1)
  }

  // ---------------------------------------------------------------- approvals that index

  /** A command that is not a replay, offered, and backed by an applied ALLOW. */
  ghost predicate IsFreshApproval(w: World, id: string, command: OperatorCommand) {
    && id in w.records && command.action == Approve && IsFresh(w, id, command)
    && (var policy := LatestAppliedPolicy(w.records[id].events);
        policy.Some? && policy.value.decision == ALLOW && policy.value.indexAction == INDEX)
  }

  /** This approval indexes its candidate now. */
  ghost predicate ApprovalIndexes(w: World, id: string, command: OperatorCommand, token: string, env: Surroundings) {
    && "anl_" + token !in w.records && id in w.records && command.action == Approve
    && var result := ExecuteStep(w, id, command, token, env).1;
       result.Ok? && !result.value.idempotentReplay && result.value.outcome.Some? && result.value.outcome.value.action == INDEX
  }

  lemma IndexingIsFresh(w: World, id: string, command: OperatorCommand, token: string, env: Surroundings)
    requires ApprovalIndexes(w, id, command, token, env)
    ensures IsFreshApproval(w, id, command)
  {
  }

  lemma FreshIndexesExactly(w: World, id: string, command: OperatorCommand, token: string, env: Surroundings)
    requires WellFormed(w.index) && IsFreshApproval(w, id, command) && "anl_" + token !in w.records
    ensures var p, policy := w.records[id].prepared, LatestAppliedPolicy(w.records[id].events).value;
            && (ApprovalIndexes(w, id, command, token, env) <==> MayIndex(w, p, policy, true, env) && !env.completionFault)
            && (MayIndex(w, p, policy, true, env) ==>
                  ExecuteStep(w, id, command, token, env).0.index == Stored(w.index, p.documentId, CandidateVersion(w, p)))
  {
    FreshApproval(w, id, command, token, env);
    IndexesExactly(w, w.records[id].prepared, LatestAppliedPolicy(w.records[id].events).value, true, env);
  }

  lemma IndexingMayIndex(w: World, id: string, command: OperatorCommand, token: string, env: Surroundings)
    requires WellFormed(w.index) && ApprovalIndexes(w, id, command, token, env)
    ensures IsFreshApproval(w, id, command)
    ensures var p, policy := w.records[id].prepared, LatestAppliedPolicy(w.records[id].events).value;
            && MayIndex(w, p, policy, true, env)
            && ExecuteStep(w, id, command, token, env).0.index == Stored(w.index, p.documentId, CandidateVersion(w, p))
  {
    IndexingIsFresh(w, id, command, token, env);
    FreshIndexesExactly(w, id, command, token, env);
  }
}
