/** B's answers: which submissions the gateway takes, and the state each leaves its analysis in. */
module Answers {
  import opened Wrappers
  import opened Contracts
  import opened Gate
  import opened GateVerdicts
  import opened Operations
  import opened Runs
  import opened Conversations

  /** The submission answers the logged request of an analysis that is not superseded, is bound to its candidate,
      and no other submission was received before it. */
  ghost predicate IsTakeable(w: World, id: string, submission: PolicySubmission) {
    && id in w.records && Fold(w.records[id].events).state != SUPERSEDED
    && (exists r :: Says(w.records[id].events, AnalysisRequested(r)) && r.requestId == submission.requestId)
    && submission.policy.candidateSha256 == Some(w.records[id].prepared.candidate.sha256)
    && (forall s :: Says(w.records[id].events, SubmissionReceived(s)) ==> s == submission)
  }

  ghost predicate IsApplied(w: World, id: string)
    requires id in w.records
  {
    exists i :: 0 <= i < |w.records[id].events| && w.records[id].events[i].payload.SubmissionApplied?
  }

  /** What is takeable, by what was said. */
  predicate Suits(p: PreparedAnalysis, d: Dialogue, state: WorkflowState, submission: PolicySubmission) {
    && state != SUPERSEDED && d.requests != [] && d.requests[0].requestId == submission.requestId
    && submission.policy.candidateSha256 == Some(p.candidate.sha256)
    && (d.received == [] || d.received == [submission])
  }

  lemma TakeableIsSuited(w: World, id: string, submission: PolicySubmission)
    requires AllConverse(w) && id in w.records
    ensures IsTakeable(w, id, submission)
       <==> Suits(w.records[id].prepared, Talk(w.records[id].events), Fold(w.records[id].events).state, submission)
  {
    assert IsConversing(w, id);
    var events, d := w.records[id].events, Talk(w.records[id].events);
    SaidExactly(events);
    RequestsSuit(events, d, submission);
    AnswersSuit(events, d, submission);
  }

  lemma RequestsSuit(events: seq<Event>, d: Dialogue, submission: PolicySubmission)
    requires |d.requests| <= 1 && forall r :: r in d.requests <==> Says(events, AnalysisRequested(r))
    ensures (exists r :: Says(events, AnalysisRequested(r)) && r.requestId == submission.requestId)
       <==> d.requests != [] && d.requests[0].requestId == submission.requestId
  {
    if d.requests != [] { assert d.requests[0] in d.requests; }
    if r :| Says(events, AnalysisRequested(r)) && r.requestId == submission.requestId {
      assert r in d.requests;
    }
  }

  lemma AnswersSuit(events: seq<Event>, d: Dialogue, submission: PolicySubmission)
    requires |d.received| <= 1 && forall s :: s in d.received <==> Says(events, SubmissionReceived(s))
    ensures (forall s :: Says(events, SubmissionReceived(s)) ==> s == submission) <==> d.received == [] || d.received == [submission]
  {
    if d.received != [] { assert d.received == [d.received[0]] && d.received[0] in d.received; }
    if forall s :: Says(events, SubmissionReceived(s)) ==> s == submission {
      assert forall s | s in d.received :: Says(events, SubmissionReceived(s));
    }
  }

  /** What the code reads from the log, by what was said. */
  lemma DialogueReads(w: World, id: string, request: RiskRequest)
    requires AllConverse(w) && id in w.records && Talk(w.records[id].events).requests == [request]
    ensures var events, d := w.records[id].events, Talk(w.records[id].events);
            && request.analysisId == id
            && ReceivedSubmission(events, request.requestId) == (if d.received == [] then None else Some(d.received[0]))
            && (AppliedSubmission(events, request.requestId) <==> d.applied != [])
  {
    assert IsConversing(w, id);
    var events, d := w.records[id].events, Talk(w.records[id].events);
    AnswerIsSaid(events, request.requestId);
    ApplicationIsSaid(events, request.requestId);
    assert request in d.requests;
    assert d.received == [] || (d.received == [d.received[0]] && d.received[0] in d.received);
    assert d.applied == [] || d.applied[0] in d.applied;
  }

  /** The step, by what was said: refused, repeated, or accepted. */
  lemma SubmitBySuit(w: World, id: string, submission: PolicySubmission, token: string, env: Surroundings)
    requires AllConverse(w) && AllAsked(w) && id in w.records
    ensures var d, (w', result) := Talk(w.records[id].events), SubmitStep(w, id, submission, token, env);
            if !Suits(w.records[id].prepared, d, Fold(w.records[id].events).state, submission) then result.Err? && w' == w
            else result.Ok? && w' == if d.applied != [] then w else AcceptResult(w, id, submission, env)
  {
    var events, request := w.records[id].events, EnsureRequest(w, id, token).1;
    AskedOnce(w, id, token);
    DialogueReads(w, id, request);
    assert IsConversing(w, id);
    if Fold(events).state == SUPERSEDED {
      SupersededRefuses(w, id, submission, token, env);
    } else {
      SubmitUnfolds(w, id, submission, token, env, request);
      SuitReads(w.records[id].prepared, Talk(events), Fold(events).state, submission, request,
                ReceivedSubmission(events, request.requestId));
    }
  }

  lemma SupersededRefuses(w: World, id: string, submission: PolicySubmission, token: string, env: Surroundings)
    requires id in w.records && Fold(w.records[id].events).state == SUPERSEDED
    ensures SubmitStep(w, id, submission, token, env).1.Err? && SubmitStep(w, id, submission, token, env).0 == w
  {
  }

  lemma SuitReads(p: PreparedAnalysis, d: Dialogue, state: WorkflowState, submission: PolicySubmission, request: RiskRequest,
                  prior: Option<PolicySubmission>)
    requires d.requests == [request] && |d.received| <= 1 && state != SUPERSEDED
    requires prior == if d.received == [] then None else Some(d.received[0])
    ensures Suits(p, d, state, submission) <==>
              && request.requestId == submission.requestId && submission.policy.candidateSha256 == Some(p.candidate.sha256)
              && !(prior.Some? && prior.value != submission)
  {
    if d.received != [] { assert d.received == [d.received[0]]; }
  }

  /** The step on an analysis that was asked about. */
  lemma SubmitUnfolds(w: World, id: string, submission: PolicySubmission, token: string, env: Surroundings, request: RiskRequest)
    requires id in w.records && EnsureRequest(w, id, token) == (w, request) && Fold(w.records[id].events).state != SUPERSEDED
    ensures var events, prior := w.records[id].events, ReceivedSubmission(w.records[id].events, request.requestId);
            var (w', result) := SubmitStep(w, id, submission, token, env);
            if || request.requestId != submission.requestId || request.analysisId != id
               || submission.policy.candidateSha256 != Some(w.records[id].prepared.candidate.sha256)
               || (prior.Some? && prior.value != submission)
            then result.Err? && w' == w
            else result.Ok? && w' == if AppliedSubmission(events, request.requestId) then w else AcceptResult(w, id, submission, env)
  {
  }

  // ---------------------------------------------------------------- the state after an answer

  /** How an analysis stands once an answer was applied. */
  function StateAfter(vetted: bool, decision: Decision): WorkflowState {
    if vetted && decision == ALLOW then AWAITING_APPROVAL
    else if vetted && decision == REVIEW then ON_HOLD
    else QUARANTINED
  }

  lemma AcceptDecides(w: World, id: string, submission: PolicySubmission, env: Surroundings)
    requires id in w.records && w.records[id].prepared.analysisId == id && ChainValid(w, id)
    ensures var w' := AcceptResult(w, id, submission, env);
            && id in w'.records
            && Fold(w'.records[id].events).state
               == StateAfter(IsVetted(w, w.records[id].prepared, submission.policy, env.blob), submission.policy.decision)
            && Fold(w'.records[id].events).policy == Some(submission.policy)
  {
    var p := w.records[id].prepared;
    var w1 := if ReceivedSubmission(w.records[id].events, submission.requestId).None?
              then Log(w, id, SubmissionReceived(submission)) else w;
    ReceivingVets(w, id, submission, env.blob);
    var step := ApplyStep(w1, p, submission.policy, false, env);
    HeldExactly(w1, p, submission.policy, false, env);
    OutcomeDecides(step.world, id, submission, step.outcome.value, IsVetted(w, p, submission.policy, env.blob));
  }

  lemma OutcomeDecides(w: World, id: string, submission: PolicySubmission, outcome: IndexOutcome, vetted: bool)
    requires id in w.records && outcome.action != INDEX
    requires outcome.action == HOLD <==> vetted && submission.policy.decision != BLOCK
    ensures var w' := Log(w, id, SubmissionApplied(submission, outcome));
            && id in w'.records && Fold(w'.records[id].events).policy == Some(submission.policy)
            && Fold(w'.records[id].events).state == StateAfter(vetted, submission.policy.decision)
  {
    Logged(w, id, SubmissionApplied(submission, outcome));
  }

  /** Recording that a submission was received changes nothing the gate checks. */
  lemma ReceivingVets(w: World, id: string, submission: PolicySubmission, blob: Blob)
    requires id in w.records && w.records[id].prepared.analysisId == id && ChainValid(w, id)
    ensures var w1, p := Log(w, id, SubmissionReceived(submission)), w.records[id].prepared;
            IsVetted(w1, p, submission.policy, blob) <==> IsVetted(w, p, submission.policy, blob)
  {
    var w1 := Log(w, id, SubmissionReceived(submission));
    Logged(w, id, SubmissionReceived(submission));
    var events, events' := w.records[id].events, w1.records[id].events;
    assert forall i | 0 <= i < |events| :: events'[i] == events'[..|events|][i];
  }

  /** In every state of every run: a submission is taken exactly if it is takeable; a refused one, and one that
      was applied before, change nothing; and the first one taken decides the state. BLOCK and FAILED always
      quarantine, REVIEW holds and ALLOW awaits approval exactly if the gate's checks pass. */
  lemma AnswerDecides(ws: seq<World>, steps: seq<Step>, n: nat, id: string, submission: PolicySubmission, token: string, env: Surroundings)
    requires IsRun(ws, steps) && n < |ws| && submission.policy.Valid()
    ensures var w := ws[n]; var (w', result) := SubmitStep(w, id, submission, token, env);
            && (result.Ok? <==> IsTakeable(w, id, submission))
            && (result.Err? ==> w' == w)
            && (result.Ok? && IsApplied(w, id) ==> w' == w)
            && (result.Ok? && !IsApplied(w, id) ==>
                  && id in w'.records && Fold(w'.records[id].events).policy == Some(submission.policy)
                  && Fold(w'.records[id].events).state
                     == StateAfter(IsVetted(w, w.records[id].prepared, submission.policy, env.blob), submission.policy.decision))
  {
    var w := ws[n];
    RunsConverse(ws, steps, n);
    RunsAreChained(ws, steps, n);
    if id in w.records {
      assert IsConversing(w, id);
      TakeableIsSuited(w, id, submission);
      SubmitBySuit(w, id, submission, token, env);
      SaidExactly(w.records[id].events);
      AcceptDecides(w, id, submission, env);
    }
  }

  /** After an applied BLOCK, or an analysis that failed, the analysis is quarantined, on every run. */
  lemma BlockQuarantines(ws: seq<World>, steps: seq<Step>, n: nat, id: string, submission: PolicySubmission, token: string, env: Surroundings)
    requires IsRun(ws, steps) && n < |ws| && submission.policy.Valid() && IsTakeable(ws[n], id, submission) && !IsApplied(ws[n], id)
    requires submission.policy.decision == BLOCK || submission.policy.status == FAILED
    ensures var w' := SubmitStep(ws[n], id, submission, token, env).0;
            id in w'.records && Fold(w'.records[id].events).state == QUARANTINED
  {
    AnswerDecides(ws, steps, n, id, submission, token, env);
  }
}
