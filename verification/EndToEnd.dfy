/** The gateway and the risk service together: what B answers to the request that A logged, A takes, and the
    evidence alone decides how the analysis then stands. */
module EndToEnd {
  import opened Wrappers
  import opened Contracts
  import opened Gate
  import opened GateVerdicts
  import opened Operations
  import opened Runs
  import opened Conversations
  import opened Answers
  import RiskEngine
  import RiskService
  import RiskDecisions

  /** B works on the request that was logged for the analysis. */
  ghost predicate IsAskedWith(w: World, id: string, e: RiskEngine.Evidence) {
    id in w.records && Says(w.records[id].events, AnalysisRequested(e.request))
  }

  /** The digests of the two versions and of their texts are digests. */
  predicate HasDigests(p: PreparedAnalysis, e: RiskEngine.Evidence) {
    && RiskDecisions.IsHex(p.baseline.sha256) && RiskDecisions.IsHex(p.candidate.sha256)
    && RiskDecisions.IsHex(e.baselineNormalizedSha256) && RiskDecisions.IsHex(e.candidateNormalizedSha256)
  }

  /** On every run the request that is logged carries its analysis, and B finds it intact exactly if the digests
      are well formed. */
  lemma LoggedRequestIsIntact(ws: seq<World>, steps: seq<Step>, n: nat, id: string, e: RiskEngine.Evidence)
    requires IsRun(ws, steps) && n < |ws| && IsAskedWith(ws[n], id, e)
    ensures IsRequestFor(e.request, ws[n].records[id].prepared) && e.request.analysisId == id
    ensures RiskEngine.IntegrityIssue(e).None? <==> HasDigests(ws[n].records[id].prepared, e)
  {
    RunsConverse(ws, steps, n);
    assert IsConversing(ws[n], id);
    SaidExactly(ws[n].records[id].events);
    RiskDecisions.IntactExactly(e);
  }

  /** Whatever the judge says, B's answer to the logged request is takeable, unless the analysis was superseded or
      answered otherwise before. */
  lemma ServiceAnswerIsTakeable(ws: seq<World>, steps: seq<Step>, n: nat, id: string, e: RiskEngine.Evidence,
                                rules: RiskEngine.TextRules, judge: Option<RiskEngine.Judge>, submittedBy: string)
    requires IsRun(ws, steps) && n < |ws| && IsAskedWith(ws[n], id, e)
    ensures var submission := RiskEngine.Analyze(e, rules, judge, submittedBy).submission;
            && submission.policy.Valid()
            && (IsTakeable(ws[n], id, submission) <==>
                  && Fold(ws[n].records[id].events).state != SUPERSEDED
                  && forall s :: Says(ws[n].records[id].events, SubmissionReceived(s)) ==> s == submission)
  {
    LoggedRequestIsIntact(ws, steps, n, id, e);
    AnswerIsBound(e, rules, judge, submittedBy);
  }

  lemma AnswerIsBound(e: RiskEngine.Evidence, rules: RiskEngine.TextRules, judge: Option<RiskEngine.Judge>, submittedBy: string)
    ensures var submission := RiskEngine.Analyze(e, rules, judge, submittedBy).submission;
            && submission.requestId == e.request.requestId && submission.submittedBy == submittedBy
            && submission.policy.candidateSha256 == Some(e.request.candidateSha256) && submission.policy.Valid()
            && (submission.policy.status == COMPLETED <==> RiskEngine.IntegrityIssue(e).None?)
  {
    if judge.Some? {
      RiskService.JudgeOnlyTightens(e, rules, judge.value, submittedBy);
    } else {
      RiskService.StaticScoreMeans(e, rules);
    }
  }

  /** The candidate's own bytes are found, the version it was prepared against is its baseline, the documents are
      one, nothing that A saw blocks, and no quarantine was logged. */
  ghost predicate IsAdmitted(w: World, id: string, blob: Blob)
    requires id in w.records
  {
    var p := w.records[id].prepared;
    && p.candidate.documentId == p.documentId
    && (p.expectedCurrent.Some? ==> p.expectedCurrent == Some(p.baseline.sha256))
    && blob == Content(p.candidate.sha256) && IsClear(p.candidate.artifacts)
    && !AlreadyQuarantined(w.records[id].events)
  }

  /** The gate's checks on B's answer, on a run. */
  lemma VettedExactly(w: World, id: string, policy: PolicyResult, blob: Blob)
    requires id in w.records && IsConversing(w, id) && ChainValid(w, id) && policy.Valid()
    requires policy.candidateSha256 == Some(w.records[id].prepared.candidate.sha256)
    ensures IsVetted(w, w.records[id].prepared, policy, blob) <==> policy.status == COMPLETED && IsAdmitted(w, id, blob)
  {
  }

  /** From the evidence to the state, without a judge: once B's first answer is submitted, the analysis awaits
      approval exactly if A admits the candidate, the digests are well formed and the evidence is quiet; it is
      on hold exactly if it is neither quiet nor grave; and it is quarantined in every other case. */
  lemma EvidenceDecides(ws: seq<World>, steps: seq<Step>, n: nat, id: string, e: RiskEngine.Evidence, rules: RiskEngine.TextRules,
                        submittedBy: string, token: string, env: Surroundings)
    requires IsRun(ws, steps) && n < |ws| && IsAskedWith(ws[n], id, e) && !IsApplied(ws[n], id)
    requires Fold(ws[n].records[id].events).state != SUPERSEDED
    requires forall s :: !Says(ws[n].records[id].events, SubmissionReceived(s))
    ensures var w' := SubmitStep(ws[n], id, RiskEngine.Analyze(e, rules, None, submittedBy).submission, token, env).0;
            var passes := IsAdmitted(ws[n], id, env.blob) && HasDigests(ws[n].records[id].prepared, e);
            && id in w'.records
            && Fold(w'.records[id].events).state
               == if passes && RiskService.IsQuiet(e) then AWAITING_APPROVAL
                  else if passes && !RiskDecisions.IsGrave(e, rules) then ON_HOLD
                  else QUARANTINED
  {
    var w, submission := ws[n], RiskEngine.Analyze(e, rules, None, submittedBy).submission;
    LoggedRequestIsIntact(ws, steps, n, id, e);
    ServiceAnswerIsTakeable(ws, steps, n, id, e, rules, None, submittedBy);
    AnswerIsBound(e, rules, None, submittedBy);
    RiskDecisions.IntactExactly(e);
    RiskDecisions.DecidesExactly(e, rules, submittedBy);
    AnswerDecides(ws, steps, n, id, submission, token, env);
    RunsConverse(ws, steps, n);
    RunsAreChained(ws, steps, n);
    assert IsConversing(w, id);
    VettedExactly(w, id, submission.policy, env.blob);
  }
}
