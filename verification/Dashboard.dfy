/** The operator console's own checks of what the gateway reports (`apps/dashboard`). They know
    nothing of how the gateway works: only the records it sends. */
module Dashboard {
  import opened Wrappers
  import opened Contracts

  datatype Issue =
    | ANALYSIS_IDENTITY_MISMATCH | SNAPSHOT_IDENTITY_MISMATCH | ANALYSIS_REVISION_MISMATCH | STATUS_METADATA_MISMATCH
    | BASELINE_SHA_MISMATCH | CANDIDATE_SHA_MISMATCH | AUDIT_CHAIN_INVALID | POLICY_SHA_MISMATCH
    | COMMAND_POLICY_MISMATCH | COMMAND_STATE_MISMATCH | OUTCOME_IDENTITY_MISMATCH | CONTAINMENT_FAILURE
    | POLICY_OUTCOME_MISMATCH | STATE_OUTCOME_MISMATCH | REPLACEMENT_LINEAGE_MISMATCH

  function If(condition: bool, issue: Issue): seq<Issue> {
    if condition then [issue] else []
  }

  predicate IsAllowIndex(policy: Option<PolicyResult>) {
    policy.Some? && policy.value.decision == ALLOW && policy.value.indexAction == INDEX
  }

  predicate BoundTo(outcome: IndexOutcome, analysisId: string, documentId: string, sha: string) {
    outcome.analysisId == analysisId && outcome.documentId == documentId && outcome.candidateSha256 == sha
  }

  predicate IsPrePolicy(state: WorkflowState) {
    state == PREPARED || state == ANALYSIS_REQUESTED || state == ANALYSIS_FAILED
  }

  /** The last check of `authority_issues`: state, policy and outcome tell one story. */
  predicate StateOutcomeConsistent(status: AnalysisStatusView) {
    var policy, outcome := status.latestPolicy, status.latestOutcome;
    if IsPrePolicy(status.state) then policy.None? && outcome.None?
    else match status.state
      case AWAITING_APPROVAL =>
        IsAllowIndex(policy) && outcome.Some? && !outcome.value.indexed && outcome.value.action == HOLD
      case ON_HOLD => outcome.Some? && !outcome.value.indexed && outcome.value.action == HOLD
      case INDEXED => IsAllowIndex(policy) && outcome.Some? && outcome.value.indexed && outcome.value.action == INDEX
      case QUARANTINED => outcome.Some? && !outcome.value.indexed && outcome.value.action == QUARANTINE
      case _ => true
  }

  function AuthorityIssues(status: AnalysisStatusView, analysis: PreparedAnalysis): seq<Issue> {
    var sha := analysis.candidate.sha256;
    var policy, outcome := status.latestPolicy, status.latestOutcome;
    var isAllowIndex := IsAllowIndex(policy);
    var isBoundAllowIndex := isAllowIndex && policy.value.candidateSha256 == Some(sha);
    If(status.analysisId != analysis.analysisId || status.documentId != analysis.documentId, ANALYSIS_IDENTITY_MISMATCH)
    + If(analysis.baseline.documentId != analysis.documentId || analysis.candidate.documentId != analysis.documentId,
         SNAPSHOT_IDENTITY_MISMATCH)
    + If(status.version != analysis.version || status.attempt != analysis.attempt, ANALYSIS_REVISION_MISMATCH)
    + If(status.changedBy != analysis.changedBy || status.supersedes != analysis.supersedes
         || status.preparedAt != analysis.preparedAt, STATUS_METADATA_MISMATCH)
    + If(analysis.diff.baselineSha256 != analysis.baseline.sha256, BASELINE_SHA_MISMATCH)
    + If(status.candidateSha256 != sha || analysis.diff.candidateSha256 != sha, CANDIDATE_SHA_MISMATCH)
    + If(!status.auditChainValid, AUDIT_CHAIN_INVALID)
    + If(policy.Some? && policy.value.candidateSha256 != Some(sha), POLICY_SHA_MISMATCH)
    + If(Approve in status.allowedCommands
         && (!(status.state == AWAITING_APPROVAL || status.state == ON_HOLD) || !isBoundAllowIndex), COMMAND_POLICY_MISMATCH)
    + If(status.state == SUPERSEDED && status.allowedCommands != [], COMMAND_STATE_MISMATCH)
    + If(status.state == QUARANTINED && (exists c | c in status.allowedCommands :: c != Reanalyze), COMMAND_STATE_MISMATCH)
    + (if outcome.None? then []
       else if !BoundTo(outcome.value, analysis.analysisId, analysis.documentId, sha) then [OUTCOME_IDENTITY_MISMATCH]
       else If(outcome.value.indexed && outcome.value.action != INDEX, CONTAINMENT_FAILURE))
    + If(outcome.Some? && (outcome.value.indexed || outcome.value.action == INDEX) && !isAllowIndex, POLICY_OUTCOME_MISMATCH)
    + If(!StateOutcomeConsistent(status), STATE_OUTCOME_MISMATCH)
  }

  function ReplacementAuthorityIssues(original: PreparedAnalysis, status: AnalysisStatusView, replacement: PreparedAnalysis,
                                      expectedId: string): seq<Issue>
  {
    AuthorityIssues(status, replacement)
    + If(|| replacement.analysisId != expectedId || status.analysisId != expectedId
         || replacement.analysisId == original.analysisId || replacement.documentId != original.documentId
         || replacement.version != original.version || replacement.attempt != original.attempt + 1
         || replacement.supersedes != Some(original.analysisId) || status.supersedes != Some(original.analysisId)
         || replacement.baseline.sha256 != original.baseline.sha256
         || replacement.candidate.sha256 != original.candidate.sha256, REPLACEMENT_LINEAGE_MISMATCH)
  }

  function EffectiveCommands(status: AnalysisStatusView, analysis: PreparedAnalysis): seq<OperatorAction> {
    if AuthorityIssues(status, analysis) != [] then [] else status.allowedCommands
  }

  predicate CanDispatch(status: AnalysisStatusView, analysis: PreparedAnalysis) {
    AuthorityIssues(status, analysis) == [] && IsPrePolicy(status.state)
  }

  /** What `strip` removes of an identifier: nothing is left of a blank one. */
  predicate IsBlank(s: string) {
    forall c | c in s :: c == ' ' || '\U{9}' <= c <= '\U{D}'
  }

  /** `_command_result_matches` of the console's client. */
  predicate CommandResultMatches(result: OperatorCommandResult, analysisId: string, documentId: string, command: OperatorCommand)
  {
    var status, sha := result.status, command.expectedCandidateSha256;
    && result.command == command
    && status.analysisId == analysisId && status.documentId == documentId && status.candidateSha256 == sha
    && (result.outcome.Some? ==> BoundTo(result.outcome.value, analysisId, documentId, sha))
    && (status.latestOutcome.Some? ==> BoundTo(status.latestOutcome.value, analysisId, documentId, sha))
    && result.outcome.Some?
    && var outcome := result.outcome.value;
    && (command.action != Approve ==> outcome.action == HOLD && !outcome.indexed)
    && (command.action == Approve ==>
          (outcome.action == INDEX && outcome.indexed) || (outcome.action == QUARANTINE && !outcome.indexed))
    && (if command.action == Reanalyze then
          && result.replacementId.Some? && !IsBlank(result.replacementId.value)
          && result.replacementId.value != analysisId && status.state == SUPERSEDED
        else result.replacementId.None?)
    && (result.idempotentReplay ||
        (&& status.latestOutcome == Some(outcome)
         && match command.action
            case Hold => status.state == ON_HOLD
            case Reanalyze => status.state == SUPERSEDED
            case Approve => status.state == if outcome.indexed then INDEXED else QUARANTINED))
  }
}
