/** The records that pass between the gateway (A), the risk service (B) and the operator (C). */
module Contracts {
  import opened Wrappers

  datatype AnalysisStatus = COMPLETED | FAILED

  datatype Decision = ALLOW | REVIEW | BLOCK

  datatype IndexAction = INDEX | HOLD | QUARANTINE

  datatype WorkflowState =
    PREPARED | ANALYSIS_REQUESTED | ANALYSIS_FAILED | AWAITING_APPROVAL | ON_HOLD | INDEXED | QUARANTINED | SUPERSEDED

  datatype OperatorAction = Approve | Hold | Reanalyze

  /** `kind` is the artifact type in its normalised spelling. */
  datatype Artifact = Artifact(kind: string, hardBlock: bool, explicitlyEmpty: bool)

  datatype Snapshot = Snapshot(documentId: string, sha256: string, text: string, artifacts: seq<Artifact>)

  datatype DiffReport = DiffReport(baselineSha256: string, candidateSha256: string)

  datatype PreparedAnalysis = PreparedAnalysis(
    analysisId: string, documentId: string, baseline: Snapshot, candidate: Snapshot, diff: DiffReport,
    expectedCurrent: Option<string>, version: nat, changedBy: string, preparedAt: nat, attempt: nat,
    supersedes: Option<string>)

  datatype PolicyResult = PolicyResult(
    status: AnalysisStatus, decision: Decision, riskScore: int, indexAction: IndexAction, candidateSha256: Option<string>)
  {
    /** `validate_safe_combination` and the bounds of the score. */
    predicate Valid() {
      && 0 <= riskScore <= 100
      && (|| (decision == ALLOW && indexAction == INDEX)
          || (decision == REVIEW && indexAction == HOLD)
          || (decision == BLOCK && indexAction == QUARANTINE))
      && (status == FAILED ==> decision == BLOCK && indexAction == QUARANTINE)
    }
  }

  /** Why an outcome came about: a code, the artifact types it names, and a removal failure. */
  datatype Reason = Reason(code: string, artifacts: set<string>, removalError: Option<string>)

  datatype IndexOutcome = IndexOutcome(
    analysisId: string, documentId: string, candidateSha256: string, indexed: bool, chunkCount: nat,
    action: IndexAction, reason: Reason)

  datatype RiskRequest = RiskRequest(
    requestId: string, analysisId: string, documentId: string, version: nat, attempt: nat, changedBy: string,
    baselineSha256: string, candidateSha256: string, beforeText: string, afterText: string, diff: DiffReport)

  datatype PolicySubmission = PolicySubmission(requestId: string, submittedBy: string, policy: PolicyResult)

  datatype OperatorCommand = OperatorCommand(
    action: OperatorAction, actor: string, reason: string, idempotencyKey: string, expectedCandidateSha256: string)

  datatype AnalysisStatusView = AnalysisStatusView(
    analysisId: string, documentId: string, version: nat, attempt: nat, state: WorkflowState,
    candidateSha256: string, changedBy: string, preparedAt: nat, latestRequestId: Option<string>,
    latestPolicy: Option<PolicyResult>, latestOutcome: Option<IndexOutcome>, allowedCommands: seq<OperatorAction>,
    auditChainValid: bool, supersedes: Option<string>)

  datatype OperatorCommandResult = OperatorCommandResult(
    command: OperatorCommand, status: AnalysisStatusView, outcome: Option<IndexOutcome>,
    replacementId: Option<string>, idempotentReplay: bool)

  /** What the audit log records: one constructor for each event type. */
  datatype Payload =
    | AnalysisPrepared(prepared: PreparedAnalysis)
    | AnalysisRequested(request: RiskRequest)
    | SubmissionReceived(submission: PolicySubmission)
    | PolicyResultReceived(policy: PolicyResult)
    | PolicyResultRejected
    | IndexGateApplied(outcome: IndexOutcome)
    | SubmissionApplied(submission: PolicySubmission, outcome: IndexOutcome)
    | DispatchStarted(requestId: string)
    | DispatchFailed(requestId: string)
    | CommandCompleted(command: OperatorCommand, commandOutcome: Option<IndexOutcome>, replacementId: Option<string>)
    | AnalysisSuperseded(replacement: string)
}
