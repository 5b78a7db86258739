/** Which verdict the gate gives, in terms of the records it is given: a hold, an indexing or a quarantine. */
module GateVerdicts {
  import opened Wrappers
  import opened Contracts
  import opened VersionedIndex
  import opened Gate
  import opened GateLaws
  import SqliteIndexer

  /** Every record names the other: one document, one pair of digests, and the candidate's own bytes. */
  predicate IsBound(stored: PreparedAnalysis, p: PreparedAnalysis, policy: PolicyResult, blob: Blob) {
    && stored == p
    && p.candidate.documentId == p.documentId
    && p.diff.baselineSha256 == p.baseline.sha256 && p.diff.candidateSha256 == p.candidate.sha256
    && (p.expectedCurrent.Some? ==> p.expectedCurrent == Some(p.baseline.sha256))
    && (policy.decision == ALLOW || policy.candidateSha256.Some? ==> policy.candidateSha256 == Some(p.candidate.sha256))
    && blob == Content(p.candidate.sha256)
  }

  /** No artifact is flagged, and one of a blocking type was found to be empty. */
  predicate IsClear(artifacts: seq<Artifact>) {
    forall i | 0 <= i < |artifacts| ::
      !artifacts[i].hardBlock && (artifacts[i].kind in HARD_BLOCK_ARTIFACT_TYPES ==> artifacts[i].explicitlyEmpty)
  }

  lemma {:induction false} ClearExactly(artifacts: seq<Artifact>)
    ensures HardBlocking(artifacts) == [] <==> IsClear(artifacts)
  {
    if artifacts != [] {
      var before, last := artifacts[..|artifacts| - 1], artifacts[|artifacts| - 1];
      ClearExactly(before);
      assert forall i | 0 <= i < |before| :: artifacts[i] == before[i];
    }
  }

  /** The call is not refused: a valid and completed policy on a recorded analysis whose log verifies and holds
      no quarantine, all bound together, and nothing that blocks. */
  ghost predicate IsVetted(w: World, p: PreparedAnalysis, policy: PolicyResult, blob: Blob) {
    && policy.Valid() && policy.status == COMPLETED
    && p.analysisId in w.records && ChainValid(w, p.analysisId)
    && (forall i | 0 <= i < |w.records[p.analysisId].events| ::
          var payload := w.records[p.analysisId].events[i].payload;
          payload.IndexGateApplied? ==> payload.outcome.action != QUARANTINE)
    && IsBound(w.records[p.analysisId].prepared, p, policy, blob) && IsClear(p.candidate.artifacts)
  }

  /** The call did not raise, and its outcome is this. */
  predicate Answers(step: GateStep, action: IndexAction) {
    step.outcome.Some? && step.outcome.value.action == action
  }

  /** The checks pass, keep the candidate out, or refuse it, as the decision says. */
  lemma JudgesExactly(stored: PreparedAnalysis, p: PreparedAnalysis, policy: PolicyResult, indexIfAllowed: bool, blob: Blob)
    requires policy.Valid()
    ensures var verdict, vetted := Judge(stored, p, policy, indexIfAllowed, blob),
                                   IsBound(stored, p, policy, blob) && IsClear(p.candidate.artifacts) && policy.status == COMPLETED;
            && (verdict.KeepOut? <==> vetted && (policy.decision == REVIEW || (policy.decision == ALLOW && !indexIfAllowed)))
            && (verdict.Admit? <==> vetted && policy.decision == ALLOW && indexIfAllowed)
  {
    ClearExactly(p.candidate.artifacts);
  }

  lemma SettlesExactly(w: World, p: PreparedAnalysis, verdict: Verdict, env: Surroundings)
    requires p.analysisId in w.records
    ensures Answers(SettleStep(w, p, verdict, env), HOLD) <==> verdict.KeepOut?
    ensures Answers(SettleStep(w, p, verdict, env), INDEX) ==> verdict.Admit?
    ensures SettleStep(w, p, verdict, env).outcome.None? ==> verdict.Admit?
  {
  }

  lemma NotVettedQuarantines(w: World, p: PreparedAnalysis, policy: PolicyResult, indexIfAllowed: bool, env: Surroundings)
    requires !policy.Valid() || p.analysisId !in w.records || !ChainValid(w, p.analysisId)
             || AlreadyQuarantined(w.records[p.analysisId].events)
    ensures Answers(ApplyStep(w, p, policy, indexIfAllowed, env), QUARANTINE) && !IsVetted(w, p, policy, env.blob)
  {
  }

  /** The outcome is HOLD exactly if the call is vetted and B asks for a review, or allows what C has not
      approved. It can be INDEX, or the call can raise, only if B allows it and C has approved it. */
  lemma HeldExactly(w: World, p: PreparedAnalysis, policy: PolicyResult, indexIfAllowed: bool, env: Surroundings)
    ensures var step, vetted := ApplyStep(w, p, policy, indexIfAllowed, env), IsVetted(w, p, policy, env.blob);
            && (Answers(step, HOLD) <==> vetted && (policy.decision == REVIEW || (policy.decision == ALLOW && !indexIfAllowed)))
            && (Answers(step, INDEX) || step.outcome.None? ==> vetted && policy.decision == ALLOW && indexIfAllowed)
  {
    var id := p.analysisId;
    if policy.Valid() && id in w.records && ChainValid(w, id) && !AlreadyQuarantined(w.records[id].events) {
      var verdict := Judge(w.records[id].prepared, p, policy, indexIfAllowed, env.blob);
      JudgesExactly(w.records[id].prepared, p, policy, indexIfAllowed, env.blob);
      SettlesExactly(Log(w, id, PolicyResultReceived(policy)), p, verdict, env);
    } else {
      NotVettedQuarantines(w, p, policy, indexIfAllowed, env);
    }
  }

  /** A BLOCK, a failed analysis, a broken binding or a blocking artifact is quarantined, whatever fails around
      the call; so is whatever else is neither held, indexed nor raised. */
  lemma QuarantinedExactly(w: World, p: PreparedAnalysis, policy: PolicyResult, indexIfAllowed: bool, env: Surroundings)
    requires Ready(w)
    ensures var step, vetted := ApplyStep(w, p, policy, indexIfAllowed, env), IsVetted(w, p, policy, env.blob);
            && (policy.decision == BLOCK || policy.status == FAILED || !vetted ==> Answers(step, QUARANTINE))
            && (Answers(step, QUARANTINE) <==>
                  || !vetted || policy.decision == BLOCK
                  || (policy.decision == ALLOW && indexIfAllowed && !Admissible(w, p, env.(auditFault := false))))
  {
    HeldExactly(w, p, policy, indexIfAllowed, env);
    if IsVetted(w, p, policy, env.blob) && policy.decision == ALLOW && indexIfAllowed {
      DueOrQuarantined(w, p, policy, env);
    }
  }

  lemma DueOrQuarantined(w: World, p: PreparedAnalysis, policy: PolicyResult, env: Surroundings)
    requires Ready(w) && IsVetted(w, p, policy, env.blob) && policy.decision == ALLOW
    ensures Answers(ApplyStep(w, p, policy, true, env), QUARANTINE) <==> !Admissible(w, p, env.(auditFault := false))
  {
    var id := p.analysisId;
    var w1 := Log(w, id, PolicyResultReceived(policy));
    JudgesExactly(w.records[id].prepared, p, policy, true, env.blob);
    assert !AlreadyQuarantined(w.records[id].events);
    assert CandidateVersion(w1, p) == CandidateVersion(w, p);
    AdmitsOrQuarantines(w1, p, env);
    assert Admissible(w1, p, env.(auditFault := false)) <==> Admissible(w, p, env.(auditFault := false));
  }

  lemma AdmitsOrQuarantines(w: World, p: PreparedAnalysis, env: Surroundings)
    requires p.analysisId in w.records && p.candidate.documentId == p.documentId
    ensures Answers(AdmitStep(w, p, env), QUARANTINE) <==> !Admissible(w, p, env.(auditFault := false))
  {
  }

  // ---------------------------------------------------------------- what is recorded

  /** The last event of the log is this outcome. */
  ghost predicate EndsWithOutcome(w: World, id: string, outcome: IndexOutcome) {
    && id in w.records && w.records[id].events != []
    && w.records[id].events[|w.records[id].events| - 1].payload == IndexGateApplied(outcome)
  }

  /** The outcome is about this candidate, and says it is indexed only if it was, or if removing it failed. */
  predicate IsAbout(outcome: IndexOutcome, p: PreparedAnalysis, env: Surroundings) {
    && outcome.analysisId == p.analysisId && outcome.documentId == p.documentId && outcome.candidateSha256 == p.candidate.sha256
    && (outcome.action == INDEX ==> outcome.indexed && outcome.chunkCount > 0)
    && (outcome.action != INDEX ==> outcome.chunkCount == 0 && (outcome.indexed ==> env.removeFault.Some?))
    && (outcome.action == HOLD ==> (outcome.indexed <==> env.removeFault.Some?))
  }

  lemma DenyRecords(w: World, p: PreparedAnalysis, reason: Reason, remove: bool, env: Surroundings)
    requires p.analysisId in w.records
    ensures var step := Deny(w, p, reason, true, remove, env);
            && EndsWithOutcome(step.world, p.analysisId, step.outcome.value) && IsAbout(step.outcome.value, p, env)
            && step.outcome.value.action == QUARANTINE
  {
  }

  lemma NotIndexedRecords(w: World, p: PreparedAnalysis, reason: Reason, env: Surroundings)
    requires p.analysisId in w.records
    ensures var step := NotIndexed(w, p, reason, env);
            && EndsWithOutcome(step.world, p.analysisId, step.outcome.value) && IsAbout(step.outcome.value, p, env)
            && step.outcome.value.action == HOLD
  {
  }

  lemma AdmitRecords(w: World, p: PreparedAnalysis, env: Surroundings)
    requires p.analysisId in w.records
    ensures var step := AdmitStep(w, p, env);
            step.outcome.Some? ==> EndsWithOutcome(step.world, p.analysisId, step.outcome.value) && IsAbout(step.outcome.value, p, env)
  {
    var version := CandidateVersion(w, p);
    var indexed := w.(index := Stored(w.index, p.candidate.documentId, version));
    var result := SqliteIndexer.IndexResult(
      p.candidate.documentId, p.candidate.sha256, version.chunks, SqliteIndexer.Expect(p.expectedCurrent),
      CurrentOf(w.index, p.candidate.documentId), env.writeFault);
    match result {
      case Err(StaleBaseline) => DenyRecords(w, p, Because("STALE_BASELINE_VERSION"), false, env);
      case Err(error) => DenyRecords(w, p, Reason("INDEXER_ERROR", {ErrorName(error)}, None), true, env);
      case Ok(own) => DenyRecords(indexed, p, Because("INVALID_INDEX_RECEIPT"), true, env);
    }
  }

  /** On a recorded analysis whose log verifies, the gate logs the very outcome it answers, last. */
  lemma OutcomeIsRecorded(w: World, p: PreparedAnalysis, policy: PolicyResult, indexIfAllowed: bool, env: Surroundings)
    requires p.analysisId in w.records && ChainValid(w, p.analysisId)
    ensures var step := ApplyStep(w, p, policy, indexIfAllowed, env);
            step.outcome.Some? ==> EndsWithOutcome(step.world, p.analysisId, step.outcome.value) && IsAbout(step.outcome.value, p, env)
  {
    var id := p.analysisId;
    if !policy.Valid() {
      DenyRecords(LogIfKnown(w, id, PolicyResultRejected), p, Because("INVALID_POLICY_RESULT"), true, env);
    } else if AlreadyQuarantined(w.records[id].events) {
      DenyRecords(w, p, Because("ANALYSIS_ALREADY_QUARANTINED"), true, env);
    } else {
      var w1 := Log(w, id, PolicyResultReceived(policy));
      match Judge(w.records[id].prepared, p, policy, indexIfAllowed, env.blob) {
        case Refuse(reason) => DenyRecords(w1, p, reason, true, env);
        case KeepOut(reason) => NotIndexedRecords(w1, p, reason, env);
        case Admit => AdmitRecords(w1, p, env);
      }
    }
  }

  /** The log of `id` grew by these payloads, in order, and no other analysis was touched. */
  ghost predicate Appends(w: World, w': World, id: string, payloads: seq<Payload>) {
    && id in w.records && id in w'.records && w'.records.Keys == w.records.Keys
    && (forall other | other in w.records && other != id :: w'.records[other] == w.records[other])
    && var events, events' := w.records[id].events, w'.records[id].events;
    && |events'| == |events| + |payloads| && events'[..|events|] == events
    && forall i | 0 <= i < |payloads| :: events'[|events| + i].payload == payloads[i]
  }

  lemma LogAppends(w: World, id: string, payload: Payload)
    requires id in w.records
    ensures Appends(w, Log(w, id, payload), id, [payload])
  {
  }

  lemma AppendsTwice(w: World, w1: World, w2: World, id: string, a: seq<Payload>, b: seq<Payload>)
    requires Appends(w, w1, id, a) && Appends(w1, w2, id, b)
    ensures Appends(w, w2, id, a + b)
  {
    var events, events1, events2 := w.records[id].events, w1.records[id].events, w2.records[id].events;
    assert events2[..|events1|][..|events|] == events2[..|events|];
    forall i | 0 <= i < |a| ensures events2[|events| + i].payload == a[i] {
      assert events2[|events| + i] == events2[..|events1|][|events| + i];
    }
  }

  function Recorded(outcome: Option<IndexOutcome>): seq<Payload> {
    if outcome.Some? then [IndexGateApplied(outcome.value)] else []
  }

  lemma DenyAppends(w: World, p: PreparedAnalysis, reason: Reason, remove: bool, env: Surroundings)
    requires p.analysisId in w.records
    ensures var step := Deny(w, p, reason, true, remove, env); Appends(w, step.world, p.analysisId, Recorded(step.outcome))
  {
    var step := Deny(w, p, reason, true, remove, env);
    LogAppends(if remove then RemoveCandidate(w, p, env) else w, p.analysisId, IndexGateApplied(step.outcome.value));
  }

  lemma AdmitAppends(w: World, p: PreparedAnalysis, env: Surroundings)
    requires p.analysisId in w.records
    ensures var step := AdmitStep(w, p, env); Appends(w, step.world, p.analysisId, Recorded(step.outcome))
  {
    var version := CandidateVersion(w, p);
    var indexed := w.(index := Stored(w.index, p.candidate.documentId, version));
    var result := SqliteIndexer.IndexResult(
      p.candidate.documentId, p.candidate.sha256, version.chunks, SqliteIndexer.Expect(p.expectedCurrent),
      CurrentOf(w.index, p.candidate.documentId), env.writeFault);
    match result {
      case Err(StaleBaseline) => DenyAppends(w, p, Because("STALE_BASELINE_VERSION"), false, env);
      case Err(error) => DenyAppends(w, p, Reason("INDEXER_ERROR", {ErrorName(error)}, None), true, env);
      case Ok(own) =>
        IndexedAppends(w, indexed, p, if env.receipt.Some? then env.receipt.value else own, env);
    }
  }

  lemma IndexedAppends(w: World, indexed: World, p: PreparedAnalysis, receipt: SqliteIndexer.Receipt, env: Surroundings)
    requires p.analysisId in w.records && indexed.records == w.records
    ensures var id, outcome := p.analysisId, IndexedOutcome(p, receipt.chunkCount);
            && Appends(w, Log(indexed, id, IndexGateApplied(outcome)), id, Recorded(Some(outcome)))
            && Appends(w, RemoveCandidate(indexed, p, env), id, Recorded(None))
    ensures var step := Deny(indexed, p, Because("INVALID_INDEX_RECEIPT"), true, true, env);
            Appends(w, step.world, p.analysisId, Recorded(step.outcome))
  {
    DenyAppends(indexed, p, Because("INVALID_INDEX_RECEIPT"), true, env);
    LogAppends(indexed, p.analysisId, IndexGateApplied(IndexedOutcome(p, receipt.chunkCount)));
  }

  lemma SettleAppends(w: World, p: PreparedAnalysis, verdict: Verdict, env: Surroundings)
    requires p.analysisId in w.records
    ensures var step := SettleStep(w, p, verdict, env); Appends(w, step.world, p.analysisId, Recorded(step.outcome))
  {
    match verdict {
      case Refuse(reason) => DenyAppends(w, p, reason, true, env);
      case KeepOut(reason) =>
        LogAppends(RemoveCandidate(w, p, env), p.analysisId, IndexGateApplied(RefusalOutcome(p, HOLD, reason, env.removeFault)));
      case Admit => AdmitAppends(w, p, env);
    }
  }

  /** On a recorded analysis whose log verifies, the gate logs the policy it was given, or that it was no policy,
      unless the analysis was quarantined before; then its outcome; and nothing else. */
  lemma RecordsExactly(w: World, p: PreparedAnalysis, policy: PolicyResult, indexIfAllowed: bool, env: Surroundings)
    requires p.analysisId in w.records && ChainValid(w, p.analysisId)
    ensures var step := ApplyStep(w, p, policy, indexIfAllowed, env);
            var heard := if !policy.Valid() then [PolicyResultRejected]
                         else if AlreadyQuarantined(w.records[p.analysisId].events) then [] else [PolicyResultReceived(policy)];
            Appends(w, step.world, p.analysisId, heard + Recorded(step.outcome))
  {
    var id, step := p.analysisId, ApplyStep(w, p, policy, indexIfAllowed, env);
    if !policy.Valid() {
      var w1 := Log(w, id, PolicyResultRejected);
      LogAppends(w, id, PolicyResultRejected);
      SettleAppends(w1, p, Refuse(Because("INVALID_POLICY_RESULT")), env);
      AppendsTwice(w, w1, step.world, id, [PolicyResultRejected], Recorded(step.outcome));
    } else if AlreadyQuarantined(w.records[id].events) {
      SettleAppends(w, p, Refuse(Because("ANALYSIS_ALREADY_QUARANTINED")), env);
      assert [] + Recorded(step.outcome) == Recorded(step.outcome);
    } else {
      var w1 := Log(w, id, PolicyResultReceived(policy));
      LogAppends(w, id, PolicyResultReceived(policy));
      SettleAppends(w1, p, Judge(w.records[id].prepared, p, policy, indexIfAllowed, env.blob), env);
      AppendsTwice(w, w1, step.world, id, [PolicyResultReceived(policy)], Recorded(step.outcome));
    }
  }

  /** An indexing reports the chunks that its receipt counts: the index's own one counts those of the candidate. */
  lemma IndexCounts(w: World, p: PreparedAnalysis, policy: PolicyResult, indexIfAllowed: bool, env: Surroundings)
    requires Ready(w) && Answers(ApplyStep(w, p, policy, indexIfAllowed, env), INDEX)
    ensures ApplyStep(w, p, policy, indexIfAllowed, env).outcome.value.chunkCount
         == if env.receipt.Some? then env.receipt.value.chunkCount else |CandidateVersion(w, p).chunks|
  {
    HeldExactly(w, p, policy, indexIfAllowed, env);
    JudgesExactly(w.records[p.analysisId].prepared, p, policy, indexIfAllowed, env.blob);
    var w1 := Log(w, p.analysisId, PolicyResultReceived(policy));
    assert CandidateVersion(w1, p) == CandidateVersion(w, p);
    AdmitCounts(w1, p, env);
  }

  lemma AdmitCounts(w: World, p: PreparedAnalysis, env: Surroundings)
    requires p.analysisId in w.records && Answers(AdmitStep(w, p, env), INDEX)
    ensures AdmitStep(w, p, env).outcome.value.chunkCount
         == if env.receipt.Some? then env.receipt.value.chunkCount else |CandidateVersion(w, p).chunks|
  {
  }

  /** An approved candidate that was prepared against another version than the current one is refused, and the index
      stays as it was. One without text, or whose writing raises, is taken out, if it was there before. */
  lemma RefusedIndexing(w: World, p: PreparedAnalysis, policy: PolicyResult, env: Surroundings)
    requires Ready(w) && IsVetted(w, p, policy, env.blob) && policy.decision == ALLOW
    ensures var step, chunks := ApplyStep(w, p, policy, true, env), CandidateVersion(w, p).chunks;
            var isCurrent := CurrentOf(w.index, p.documentId) == p.expectedCurrent;
            && (chunks != [] && !isCurrent ==>
                  && Answers(step, QUARANTINE) && step.outcome.value.reason == Because("STALE_BASELINE_VERSION")
                  && !step.outcome.value.indexed && step.world.index == w.index)
            && (chunks == [] || (isCurrent && env.writeFault.Some? && env.writeFault.value < |chunks|) ==>
                  && Answers(step, QUARANTINE) && step.outcome.value.reason.code == "INDEXER_ERROR"
                  && (step.outcome.value.indexed <==> env.removeFault.Some?)
                  && step.world.index == if env.removeFault.Some? then w.index else Removed(w.index, p.documentId, p.candidate.sha256))
  {
    var w1 := Log(w, p.analysisId, PolicyResultReceived(policy));
    JudgesExactly(w.records[p.analysisId].prepared, p, policy, true, env.blob);
    assert !AlreadyQuarantined(w.records[p.analysisId].events);
    assert CandidateVersion(w1, p) == CandidateVersion(w, p);
    AdmitRefuses(w1, p, env);
  }

  lemma AdmitRefuses(w: World, p: PreparedAnalysis, env: Surroundings)
    requires p.analysisId in w.records && p.candidate.documentId == p.documentId
    ensures var step, chunks := AdmitStep(w, p, env), CandidateVersion(w, p).chunks;
            var isCurrent := CurrentOf(w.index, p.documentId) == p.expectedCurrent;
            && (chunks != [] && !isCurrent ==>
                  && Answers(step, QUARANTINE) && step.outcome.value.reason == Because("STALE_BASELINE_VERSION")
                  && !step.outcome.value.indexed && step.world.index == w.index)
            && (chunks == [] || (isCurrent && env.writeFault.Some? && env.writeFault.value < |chunks|) ==>
                  && Answers(step, QUARANTINE) && step.outcome.value.reason.code == "INDEXER_ERROR"
                  && (step.outcome.value.indexed <==> env.removeFault.Some?)
                  && step.world.index == if env.removeFault.Some? then w.index else Removed(w.index, p.documentId, p.candidate.sha256))
  {
  }

  // ---------------------------------------------------------------- what blocks is named

  predicate IsBlocking(artifact: Artifact) {
    artifact.hardBlock || (artifact.kind in HARD_BLOCK_ARTIFACT_TYPES && !artifact.explicitlyEmpty)
  }

  lemma {:induction false} BlockersExactly(artifacts: seq<Artifact>, artifact: Artifact)
    ensures artifact in HardBlocking(artifacts) <==> artifact in artifacts && IsBlocking(artifact)
  {
    if artifacts != [] {
      var before, last := artifacts[..|artifacts| - 1], artifacts[|artifacts| - 1];
      BlockersExactly(before, artifact);
      assert artifact in artifacts <==> artifact in before || artifact == last by { assert artifacts == before + [last]; }
    }
  }

  /** A candidate that is bound but not clear is refused for its artifacts: every type that blocks is named, and
      no other. */
  lemma BlockersAreNamed(w: World, p: PreparedAnalysis, policy: PolicyResult, indexIfAllowed: bool, env: Surroundings)
    requires policy.Valid() && p.analysisId in w.records && ChainValid(w, p.analysisId)
    requires !AlreadyQuarantined(w.records[p.analysisId].events)
    requires IsBound(w.records[p.analysisId].prepared, p, policy, env.blob) && !IsClear(p.candidate.artifacts)
    ensures var step := ApplyStep(w, p, policy, indexIfAllowed, env);
            && Answers(step, QUARANTINE) && step.outcome.value.reason.code == "HARD_BLOCK_ARTIFACT"
            && forall kind :: kind in step.outcome.value.reason.artifacts
                         <==> exists artifact :: artifact in p.candidate.artifacts && IsBlocking(artifact) && artifact.kind == kind
  {
    ClearExactly(p.candidate.artifacts);
    forall artifact ensures artifact in HardBlocking(p.candidate.artifacts)
                       <==> artifact in p.candidate.artifacts && IsBlocking(artifact)
    {
      BlockersExactly(p.candidate.artifacts, artifact);
    }
  }

  /** The answer to a hold is HOLD exactly for a recorded analysis, given as recorded, whose log verifies, and else
      QUARANTINE. It is logged, last and alone, unless the analysis is unknown or its log does not verify. */
  lemma HoldsExactly(w: World, p: PreparedAnalysis, code: string, env: Surroundings)
    ensures var id, step := p.analysisId, HoldStep(w, p, code, env);
            var known := id in w.records; var same := known && w.records[id].prepared == p;
            && (Answers(step, HOLD) <==> same && ChainValid(w, id))
            && (Answers(step, QUARANTINE) <==> !(same && ChainValid(w, id)))
            && IsAbout(step.outcome.value, p, env) && (step.outcome.value.indexed <==> env.removeFault.Some?)
            && (!known || (same && !ChainValid(w, id)) ==> step.world.records == w.records)
            && (known && (!same || ChainValid(w, id)) ==> Appends(w, step.world, id, Recorded(step.outcome)))
  {
    var id := p.analysisId;
    if id in w.records && w.records[id].prepared != p {
      DenyAppends(w, p, Because("PREPARED_ANALYSIS_MISMATCH"), true, env);
    } else if id in w.records && ChainValid(w, id) {
      SettleAppends(w, p, KeepOut(Because(code)), env);
    }
  }

  /** A call on an unknown analysis, or on one whose log does not verify, is quarantined; only what is no policy
      leaves a trace in a log, and the candidate is taken out unless removing it fails. */
  lemma UnauditedIsRefused(w: World, p: PreparedAnalysis, policy: PolicyResult, indexIfAllowed: bool, env: Surroundings)
    requires p.analysisId !in w.records || !ChainValid(w, p.analysisId)
    ensures var step := ApplyStep(w, p, policy, indexIfAllowed, env);
            && Answers(step, QUARANTINE) && IsAbout(step.outcome.value, p, env) && (step.outcome.value.indexed <==> env.removeFault.Some?)
            && (policy.Valid() || p.analysisId !in w.records ==> step.world.records == w.records)
            && (!policy.Valid() && p.analysisId in w.records ==>
                  Appends(w, step.world, p.analysisId, [PolicyResultRejected] + Recorded(step.outcome)))
            && step.world.index == if env.removeFault.Some? then w.index else Removed(w.index, p.documentId, p.candidate.sha256)
  {
    var id, step := p.analysisId, ApplyStep(w, p, policy, indexIfAllowed, env);
    if !policy.Valid() && id in w.records {
      var w1 := Log(w, id, PolicyResultRejected);
      LogAppends(w, id, PolicyResultRejected);
      DenyAppends(w1, p, Because("INVALID_POLICY_RESULT"), true, env);
      AppendsTwice(w, w1, step.world, id, [PolicyResultRejected], Recorded(step.outcome));
    }
  }

  /** A hold on a recorded analysis whose log verifies is always a hold, and is recorded. */
  lemma HoldIsRecorded(w: World, id: string, code: string, env: Surroundings)
    requires id in w.records && w.records[id].prepared.analysisId == id && ChainValid(w, id)
    ensures var p, step := w.records[id].prepared, HoldStep(w, w.records[id].prepared, code, env);
            && Answers(step, HOLD) && EndsWithOutcome(step.world, id, step.outcome.value) && IsAbout(step.outcome.value, p, env)
  {
    NotIndexedRecords(w, w.records[id].prepared, Because(code), env);
  }
}
