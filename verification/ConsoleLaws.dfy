/** What the console's checks amount to: exactly when it finds no issue with an analysis, and what it then offers. */
module ConsoleLaws {
  import opened Wrappers
  import opened Contracts
  import opened Dashboard

  /** The status and the analysis name each other, field by field. */
  predicate AreOfOne(status: AnalysisStatusView, analysis: PreparedAnalysis) {
    && status.analysisId == analysis.analysisId && status.documentId == analysis.documentId
    && status.version == analysis.version && status.attempt == analysis.attempt && status.changedBy == analysis.changedBy
    && status.supersedes == analysis.supersedes && status.preparedAt == analysis.preparedAt
    && status.candidateSha256 == analysis.candidate.sha256
  }

  /** The two versions are of the document, and the diff is between them. */
  predicate IsCoherent(analysis: PreparedAnalysis) {
    && analysis.baseline.documentId == analysis.documentId && analysis.candidate.documentId == analysis.documentId
    && analysis.diff == DiffReport(analysis.baseline.sha256, analysis.candidate.sha256)
  }

  /** B allows it to be indexed. */
  predicate IsAllowed(status: AnalysisStatusView) {
    status.latestPolicy.Some? && status.latestPolicy.value.decision == ALLOW && status.latestPolicy.value.indexAction == INDEX
  }

  /** The policy and the outcome are about the candidate; nothing is indexed but by an INDEX that B allows. */
  predicate IsBacked(status: AnalysisStatusView, analysis: PreparedAnalysis) {
    var sha := analysis.candidate.sha256;
    && (status.latestPolicy.Some? ==> status.latestPolicy.value.candidateSha256 == Some(sha))
    && (status.latestOutcome.Some? ==>
          var outcome := status.latestOutcome.value;
          && outcome.analysisId == analysis.analysisId && outcome.documentId == analysis.documentId
          && outcome.candidateSha256 == sha && (outcome.indexed ==> outcome.action == INDEX)
          && (outcome.action == INDEX ==> IsAllowed(status)))
  }

  /** The outcome is of this action, and reports an indexing exactly if it is one. */
  predicate EndedWith(status: AnalysisStatusView, action: IndexAction) {
    && status.latestOutcome.Some? && status.latestOutcome.value.action == action
    && (status.latestOutcome.value.indexed <==> action == INDEX)
  }

  /** The state is the one that policy and outcome call for. */
  predicate IsTold(status: AnalysisStatusView) {
    match status.state
    case PREPARED => status.latestPolicy.None? && status.latestOutcome.None?
    case ANALYSIS_REQUESTED => status.latestPolicy.None? && status.latestOutcome.None?
    case ANALYSIS_FAILED => status.latestPolicy.None? && status.latestOutcome.None?
    case AWAITING_APPROVAL => IsAllowed(status) && EndedWith(status, HOLD)
    case ON_HOLD => EndedWith(status, HOLD)
    case INDEXED => IsAllowed(status) && EndedWith(status, INDEX)
    case QUARANTINED => EndedWith(status, QUARANTINE)
    case SUPERSEDED => true
  }

  /** Approval is offered only for what waits or is held, and B allows; a superseded analysis offers nothing, and a
      quarantined one nothing but another analysis. */
  predicate OffersSafely(status: AnalysisStatusView) {
    && (Approve in status.allowedCommands ==> status.state in {AWAITING_APPROVAL, ON_HOLD} && IsAllowed(status))
    && (status.state == SUPERSEDED ==> status.allowedCommands == [])
    && (status.state == QUARANTINED ==> forall i | 0 <= i < |status.allowedCommands| :: status.allowedCommands[i] == Reanalyze)
  }

  predicate IsSafe(status: AnalysisStatusView, analysis: PreparedAnalysis) {
    && AreOfOne(status, analysis) && IsCoherent(analysis) && status.auditChainValid
    && IsBacked(status, analysis) && IsTold(status) && OffersSafely(status)
  }

  lemma OffersReanalyzeOnly(status: AnalysisStatusView)
    ensures (forall i | 0 <= i < |status.allowedCommands| :: status.allowedCommands[i] == Reanalyze)
       <==> !(exists c | c in status.allowedCommands :: c != Reanalyze)
  {
    assert forall i | 0 <= i < |status.allowedCommands| :: status.allowedCommands[i] in status.allowedCommands;
    assert forall c | c in status.allowedCommands :: exists i :: 0 <= i < |status.allowedCommands| && status.allowedCommands[i] == c;
  }

  /** The console finds no issue exactly if the status is safe; it is then that it offers what the gateway offers,
      and a dispatch while B has not answered. */
  lemma TrustedExactly(status: AnalysisStatusView, analysis: PreparedAnalysis)
    ensures AuthorityIssues(status, analysis) == [] <==> IsSafe(status, analysis)
    ensures EffectiveCommands(status, analysis) == if IsSafe(status, analysis) then status.allowedCommands else []
    ensures CanDispatch(status, analysis) <==>
              IsSafe(status, analysis) && status.state in {PREPARED, ANALYSIS_REQUESTED, ANALYSIS_FAILED}
  {
    OffersReanalyzeOnly(status);
    ToldExactly(status);
  }

  lemma ToldExactly(status: AnalysisStatusView)
    ensures StateOutcomeConsistent(status) <==> IsTold(status)
  {
  }
}
