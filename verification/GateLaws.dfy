/** What the gate promises about one call, whatever the state and the surroundings. */
module GateLaws {
  import opened Wrappers
  import opened Contracts
  import opened VersionedIndex
  import opened Gate
  import SqliteIndexer

  ghost predicate Ready(w: World) {
    WellFormed(w.index)
  }

  /** The candidate is gone from its document; every other version and document is as before. */
  ghost predicate OnlyCandidateGone(before: Index, after: Index, p: PreparedAnalysis) {
    && !Holds(VersionsOf(after, p.documentId), p.candidate.sha256)
    && VersionsOf(after, p.documentId) == Without(VersionsOf(before, p.documentId), p.candidate.sha256)
    && forall d | d != p.documentId :: VersionsOf(after, d) == VersionsOf(before, d)
  }

  ghost predicate IsStaleDenial(outcome: IndexOutcome) {
    outcome.reason.code == "STALE_BASELINE_VERSION"
  }

  lemma RemoveCandidateLaws(w: World, p: PreparedAnalysis, env: Surroundings)
    requires Ready(w)
    ensures Ready(RemoveCandidate(w, p, env))
    ensures env.removeFault.None? ==> OnlyCandidateGone(w.index, RemoveCandidate(w, p, env).index, p)
  {
    RemovedLaws(w.index, p.documentId, p.candidate.sha256);
    WithoutLaws(VersionsOf(w.index, p.documentId), p.candidate.sha256);
  }

  /** Indexing the candidate and taking it out again only takes it out. */
  lemma IndexThenRemove(w: World, p: PreparedAnalysis, env: Surroundings)
    requires Ready(w) && p.candidate.documentId == p.documentId
    ensures var indexed := w.(index := Stored(w.index, p.documentId, CandidateVersion(w, p)));
            && Ready(indexed)
            && (env.removeFault.None? ==> OnlyCandidateGone(w.index, RemoveCandidate(indexed, p, env).index, p))
  {
    var version := CandidateVersion(w, p);
    var indexed := w.(index := Stored(w.index, p.documentId, version));
    StoredLaws(w.index, p.documentId, version);
    RemoveCandidateLaws(indexed, p, env);
    RemoveAfterPromote(VersionsOf(w.index, p.documentId), version);
  }

  lemma JudgeAdmits(stored: PreparedAnalysis, p: PreparedAnalysis, policy: PolicyResult, indexIfAllowed: bool, blob: Blob)
    requires policy.Valid()
    ensures Judge(stored, p, policy, indexIfAllowed, blob) == Admit <==>
      && stored == p
      && p.candidate.documentId == p.documentId
      && p.diff == DiffReport(p.baseline.sha256, p.candidate.sha256)
      && (p.expectedCurrent.Some? ==> p.expectedCurrent.value == p.baseline.sha256)
      && policy.decision == ALLOW && policy.status == COMPLETED && policy.candidateSha256 == Some(p.candidate.sha256)
      && blob == Content(p.candidate.sha256)
      && HardBlocking(p.candidate.artifacts) == []
      && indexIfAllowed
    ensures !IsStale(Judge(stored, p, policy, indexIfAllowed, blob))
  {
  }

  predicate IsStale(verdict: Verdict) {
    !verdict.Admit? && verdict.reason.code == "STALE_BASELINE_VERSION"
  }

  ghost predicate Contains(before: Index, step: GateStep, p: PreparedAnalysis) {
    step.outcome.Some? && step.outcome.value.action != INDEX && !step.outcome.value.indexed ==>
      if IsStaleDenial(step.outcome.value) then step.world.index == before
      else OnlyCandidateGone(before, step.world.index, p)
  }

  lemma DenyContains(before: Index, w: World, p: PreparedAnalysis, reason: Reason, record: bool, env: Surroundings)
    requires Ready(w) && Ready(RemoveCandidate(w, p, env)) && reason.code != "STALE_BASELINE_VERSION"
    requires env.removeFault.None? ==> OnlyCandidateGone(before, RemoveCandidate(w, p, env).index, p)
    ensures var step := Deny(w, p, reason, record, true, env); Ready(step.world) && Contains(before, step, p)
  {
  }

  /** Containment: whatever does not index leaves no trace of the candidate and nothing else changed,
      except that the denial of a stale baseline removes nothing. */
  lemma ApplyContains(w: World, p: PreparedAnalysis, policy: PolicyResult, indexIfAllowed: bool, env: Surroundings)
    requires Ready(w)
    ensures var step := ApplyStep(w, p, policy, indexIfAllowed, env);
            Ready(step.world) && Contains(w.index, step, p)
  {
    RemoveCandidateLaws(w, p, env);
    var id := p.analysisId;
    if policy.Valid() && id in w.records && ChainValid(w, id) && !AlreadyQuarantined(w.records[id].events) {
      var w1 := Log(w, id, PolicyResultReceived(policy));
      JudgeAdmits(w.records[id].prepared, p, policy, indexIfAllowed, env.blob);
      match Judge(w.records[id].prepared, p, policy, indexIfAllowed, env.blob) {
        case Refuse(reason) => DenyContains(w.index, w1, p, reason, true, env);
        case KeepOut(reason) =>
        case Admit => AdmitContains(w1, p, env);
      }
    }
  }

  lemma AdmitContains(w: World, p: PreparedAnalysis, env: Surroundings)
    requires Ready(w) && p.candidate.documentId == p.documentId && p.analysisId in w.records
    ensures Ready(AdmitStep(w, p, env).world) && Contains(w.index, AdmitStep(w, p, env), p)
  {
    var version := CandidateVersion(w, p);
    var indexed := w.(index := Stored(w.index, p.documentId, version));
    IndexThenRemove(w, p, env);
    RemoveCandidateLaws(w, p, env);
    RemoveCandidateLaws(indexed, p, env);
    var result := SqliteIndexer.IndexResult(
      p.candidate.documentId, p.candidate.sha256, version.chunks, SqliteIndexer.Expect(p.expectedCurrent),
      CurrentOf(w.index, p.candidate.documentId), env.writeFault);
    if result.Ok? {
      DenyContains(w.index, indexed, p, Because("INVALID_INDEX_RECEIPT"), true, env);
    } else if !result.error.StaleBaseline? {
      DenyContains(w.index, w, p, Reason("INDEXER_ERROR", {ErrorName(result.error)}, None), true, env);
    }
  }

  lemma HoldContains(w: World, p: PreparedAnalysis, code: string, env: Surroundings)
    requires Ready(w)
    ensures var step := HoldStep(w, p, code, env);
            && Ready(step.world) && step.outcome.Some? && step.outcome.value.action != INDEX
            && (!step.outcome.value.indexed ==> OnlyCandidateGone(w.index, step.world.index, p))
  {
    RemoveCandidateLaws(w, p, env);
  }

  /** A quarantined analysis is never indexed again: a later call at most removes its candidate. */
  lemma QuarantineIsFinal(w: World, p: PreparedAnalysis, policy: PolicyResult, indexIfAllowed: bool, env: Surroundings)
    requires Ready(w) && p.analysisId in w.records && AlreadyQuarantined(w.records[p.analysisId].events)
    ensures var step := ApplyStep(w, p, policy, indexIfAllowed, env);
            && step.outcome.Some? && step.outcome.value.action == QUARANTINE
            && step.world.index in {w.index, Removed(w.index, p.documentId, p.candidate.sha256)}
  {
  }

  /** What the index, its receipt and the audit write must do for the candidate to be indexed. */
  ghost predicate Admissible(w: World, p: PreparedAnalysis, env: Surroundings) {
    && CurrentOf(w.index, p.candidate.documentId) == p.expectedCurrent
    && CandidateVersion(w, p).chunks != []
    && !(env.writeFault.Some? && env.writeFault.value < |CandidateVersion(w, p).chunks|)
    && (env.receipt.Some? ==> ReceiptFits(env.receipt.value, p))
    && !env.auditFault
  }

  predicate Indexes(step: GateStep) {
    step.outcome.Some? && step.outcome.value.action == INDEX
  }

  lemma AdmitsExactly(w: World, p: PreparedAnalysis, env: Surroundings)
    requires p.analysisId in w.records && p.candidate.documentId == p.documentId
    ensures Indexes(AdmitStep(w, p, env)) <==> Admissible(w, p, env)
    ensures Admissible(w, p, env) ==>
              AdmitStep(w, p, env).world.index == Stored(w.index, p.documentId, CandidateVersion(w, p))
  {
  }

  /** The candidate is indexed exactly when every check passes and nothing around it fails. */
  ghost predicate MayIndex(w: World, p: PreparedAnalysis, policy: PolicyResult, indexIfAllowed: bool, env: Surroundings)
    requires Ready(w)
  {
    && policy.Valid() && policy.decision == ALLOW && policy.status == COMPLETED
    && policy.candidateSha256 == Some(p.candidate.sha256) && indexIfAllowed
    && p.analysisId in w.records && w.records[p.analysisId].prepared == p
    && ChainValid(w, p.analysisId) && !AlreadyQuarantined(w.records[p.analysisId].events)
    && p.candidate.documentId == p.documentId
    && p.diff == DiffReport(p.baseline.sha256, p.candidate.sha256)
    && (p.expectedCurrent.Some? ==> p.expectedCurrent.value == p.baseline.sha256)
    && env.blob == Content(p.candidate.sha256) && HardBlocking(p.candidate.artifacts) == []
    && Admissible(w, p, env)
  }

  /** No lost update: an indexing replaces exactly the version the analysis was prepared against,
      which is the baseline of its recorded diff, and puts the candidate in front of it. */
  lemma IndexesExactly(w: World, p: PreparedAnalysis, policy: PolicyResult, indexIfAllowed: bool, env: Surroundings)
    requires Ready(w)
    ensures var step := ApplyStep(w, p, policy, indexIfAllowed, env);
            && (Indexes(step) <==> MayIndex(w, p, policy, indexIfAllowed, env))
            && (MayIndex(w, p, policy, indexIfAllowed, env) ==>
                  step.world.index == Stored(w.index, p.documentId, CandidateVersion(w, p)))
  {
    var id := p.analysisId;
    if policy.Valid() && id in w.records && ChainValid(w, id) && !AlreadyQuarantined(w.records[id].events) {
      var w1 := Log(w, id, PolicyResultReceived(policy));
      assert CandidateVersion(w1, p) == CandidateVersion(w, p);
      JudgeAdmits(w.records[id].prepared, p, policy, indexIfAllowed, env.blob);
      if Judge(w.records[id].prepared, p, policy, indexIfAllowed, env.blob).Admit? {
        AdmitsExactly(w1, p, env);
        assert Admissible(w1, p, env) <==> Admissible(w, p, env);
      }
    }
  }

  /** If the audit write behind an indexing raises, the call raises and the candidate is taken back:
      the current version is again the one before the call exactly when that was not the candidate. */
  lemma AuditFailureIsCompensated(w: World, p: PreparedAnalysis, policy: PolicyResult, indexIfAllowed: bool, env: Surroundings)
    requires Ready(w) && env.auditFault && env.removeFault.None?
    requires MayIndex(w, p, policy, indexIfAllowed, env.(auditFault := false))
    ensures var step := ApplyStep(w, p, policy, indexIfAllowed, env);
            && step.outcome == None
            && OnlyCandidateGone(w.index, step.world.index, p)
            && (CurrentOf(step.world.index, p.documentId) == CurrentOf(w.index, p.documentId)
                <==> CurrentOf(w.index, p.documentId) != Some(p.candidate.sha256))
  {
    JudgeAdmits(w.records[p.analysisId].prepared, p, policy, indexIfAllowed, env.blob);
    var w1 := Log(w, p.analysisId, PolicyResultReceived(policy));
    assert CandidateVersion(w1, p) == CandidateVersion(w, p);
    IndexThenRemove(w1, p, env);
    CompensationExactly(VersionsOf(w.index, p.documentId), CandidateVersion(w, p));
    RemoveAfterPromote(VersionsOf(w.index, p.documentId), CandidateVersion(w, p));
  }
}
