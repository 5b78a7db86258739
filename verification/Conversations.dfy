/** What A and B say to each other about an analysis, as its log tells it: on every run there is one request, it
    speaks of that analysis, and one answer to it is taken, which decides the state. */
module Conversations {
  import opened Wrappers
  import opened Contracts
  import opened Gate
  import opened Operations
  import opened Runs

  datatype Dialogue = Dialogue(requests: seq<RiskRequest>, received: seq<PolicySubmission>, applied: seq<PolicySubmission>)

  const SILENCE := Dialogue([], [], [])

  function Say(d: Dialogue, payload: Payload): Dialogue {
    match payload
    case AnalysisRequested(request) => d.(requests := d.requests + [request])
    case SubmissionReceived(submission) => d.(received := d.received + [submission])
    case SubmissionApplied(submission, _) => d.(applied := d.applied + [submission])
    case _ => d
  }

  function Talk(events: seq<Event>): Dialogue {
    if events == [] then SILENCE else Say(Talk(events[..|events| - 1]), events[|events| - 1].payload)
  }

  predicate IsSilent(payload: Payload) {
    !payload.AnalysisRequested? && !payload.SubmissionReceived? && !payload.SubmissionApplied?
  }

  // ---------------------------------------------------------------- the invariant

  /** The request carries the analysis, field by field. */
  predicate IsRequestFor(request: RiskRequest, p: PreparedAnalysis) {
    && request.analysisId == p.analysisId && request.documentId == p.documentId
    && request.version == p.version && request.attempt == p.attempt && request.changedBy == p.changedBy
    && request.baselineSha256 == p.baseline.sha256 && request.candidateSha256 == p.candidate.sha256
    && request.beforeText == p.baseline.text && request.afterText == p.candidate.text && request.diff == p.diff
  }

  predicate IsAnswerTo(submission: PolicySubmission, request: RiskRequest) {
    submission.requestId == request.requestId && submission.policy.candidateSha256 == Some(request.candidateSha256)
  }

  /** At most one request, for this analysis; at most one answer to it; and what was applied is that answer. */
  predicate Converses(p: PreparedAnalysis, d: Dialogue) {
    && |d.requests| <= 1 && |d.received| <= |d.requests|
    && (forall r | r in d.requests :: IsRequestFor(r, p))
    && (d.received != [] ==> IsAnswerTo(d.received[0], d.requests[0]))
    && (d.applied != [] ==> d.applied == d.received)
  }

  predicate HasOwnDiff(p: PreparedAnalysis) {
    p.diff == DiffReport(p.baseline.sha256, p.candidate.sha256)
  }

  ghost predicate IsConversing(w: World, id: string)
    requires id in w.records
  {
    var p := w.records[id].prepared;
    p.analysisId == id && HasOwnDiff(p) && Converses(p, Talk(w.records[id].events))
  }

  ghost predicate AllConverse(w: World) {
    forall id | id in w.records :: IsConversing(w, id)
  }

  /** Every analysis has its request. */
  ghost predicate AllAsked(w: World) {
    forall id | id in w.records :: LatestRequest(w.records[id].events).Some?
  }

  // ---------------------------------------------------------------- reading the dialogue

  lemma {:induction false} RequestIsSaid(events: seq<Event>)
    ensures var requests := Talk(events).requests;
            LatestRequest(events) == if requests == [] then None else Some(requests[|requests| - 1])
  {
    if events != [] { RequestIsSaid(events[..|events| - 1]); }
  }

  lemma {:induction false} AnswerIsSaid(events: seq<Event>, requestId: string)
    ensures ReceivedSubmission(events, requestId).Some? <==>
              exists s :: s in Talk(events).received && s.requestId == requestId
    ensures ReceivedSubmission(events, requestId).Some? ==>
              var s := ReceivedSubmission(events, requestId).value; s in Talk(events).received && s.requestId == requestId
  {
    if events != [] {
      var before, last := events[..|events| - 1], events[|events| - 1].payload;
      AnswerIsSaid(before, requestId);
      if last.SubmissionReceived? {
        assert last.submission in Talk(events).received;
        assert forall s | s in Talk(events).received :: s in Talk(before).received || s == last.submission;
      }
    }
  }

  lemma {:induction false} ApplicationIsSaid(events: seq<Event>, requestId: string)
    ensures AppliedSubmission(events, requestId) <==> exists s :: s in Talk(events).applied && s.requestId == requestId
  {
    if events != [] {
      var before, last := events[..|events| - 1], events[|events| - 1].payload;
      ApplicationIsSaid(before, requestId);
      assert forall i | 0 <= i < |before| :: events[i] == before[i];
      if last.SubmissionApplied? {
        assert last.submission in Talk(events).applied;
        assert forall s | s in Talk(events).applied :: s in Talk(before).applied || s == last.submission;
      }
    }
  }

  ghost predicate Says(events: seq<Event>, payload: Payload) {
    exists i :: 0 <= i < |events| && events[i].payload == payload
  }

  /** What the log holds is what was said. */
  lemma {:induction false} SaidExactly(events: seq<Event>)
    ensures forall r :: r in Talk(events).requests <==> Says(events, AnalysisRequested(r))
    ensures forall s :: s in Talk(events).received <==> Says(events, SubmissionReceived(s))
    ensures Talk(events).applied != [] <==> exists i :: 0 <= i < |events| && events[i].payload.SubmissionApplied?
  {
    if events != [] {
      var before, last := events[..|events| - 1], events[|events| - 1].payload;
      SaidExactly(before);
      OneMoreSaid(events, before, last);
    }
  }

  lemma OneMoreSaid(events: seq<Event>, before: seq<Event>, last: Payload)
    requires events != [] && before == events[..|events| - 1] && last == events[|events| - 1].payload
    ensures forall payload {:trigger Says(events, payload)} :: Says(events, payload) <==> payload == last || Says(before, payload)
    ensures (exists i :: 0 <= i < |events| && events[i].payload.SubmissionApplied?)
       <==> last.SubmissionApplied? || exists i :: 0 <= i < |before| && before[i].payload.SubmissionApplied?
  {
    assert forall i | 0 <= i < |before| :: before[i] == events[i];
  }

  // ---------------------------------------------------------------- steps that say nothing

  /** No analysis came or went, and nothing was said. */
  ghost predicate Silent(w: World, w': World) {
    && w'.config == w.config && w'.records.Keys == w.records.Keys
    && forall id | id in w.records :: SaysNothing(w, w', id)
  }

  ghost predicate SaysNothing(w: World, w': World, id: string)
    requires id in w.records && id in w'.records
  {
    w'.records[id].prepared == w.records[id].prepared && Talk(w'.records[id].events) == Talk(w.records[id].events)
  }

  lemma {:induction false} GateSaysNothing(events: seq<Event>, events': seq<Event>)
    requires |events| <= |events'| && events'[..|events|] == events
    requires forall i | |events| <= i < |events'| :: IsGateEvent(events'[i].payload)
    ensures Talk(events') == Talk(events)
  {
    if |events'| > |events| {
      var before := events'[..|events'| - 1];
      assert before[..|events|] == events;
      GateSaysNothing(events, before);
    } else {
      assert events' == events;
    }
  }

  /** The gate takes no part in the conversation. */
  lemma GateIsSilent(w: World, w': World)
    requires GrowsQuietly(w, w', true) && w'.records.Keys == w.records.Keys
    ensures Silent(w, w')
  {
    forall id | id in w.records ensures SaysNothing(w, w', id) {
      assert AddsQuietly(w, w', id, true) && RecordGrows(w.records[id], w'.records[id]);
      GateSaysNothing(w.records[id].events, w'.records[id].events);
    }
  }

  lemma SilentKeeps(w: World, w': World)
    requires AllConverse(w) && Silent(w, w')
    ensures AllConverse(w')
  {
    forall id | id in w'.records ensures IsConversing(w', id) {
      assert IsConversing(w, id) && SaysNothing(w, w', id);
    }
  }

  /** One event on one log. */
  lemma LogSays(w: World, id: string, payload: Payload)
    requires id in w.records
    ensures var w' := Log(w, id, payload);
            && w'.records.Keys == w.records.Keys && w'.records[id].prepared == w.records[id].prepared
            && Talk(w'.records[id].events) == Say(Talk(w.records[id].events), payload)
            && forall other | other in w.records && other != id :: w'.records[other] == w.records[other]
    ensures IsSilent(payload) ==> Silent(w, Log(w, id, payload))
  {
    Logged(w, id, payload);
    var events, events' := w.records[id].events, Log(w, id, payload).records[id].events;
    assert events'[..|events'| - 1] == events;
  }

  lemma LogKeeps(w: World, id: string, payload: Payload)
    requires AllConverse(w) && id in w.records
    requires Converses(w.records[id].prepared, Say(Talk(w.records[id].events), payload))
    ensures AllConverse(Log(w, id, payload))
  {
    LogSays(w, id, payload);
    forall other | other in w.records ensures IsConversing(Log(w, id, payload), other) {
      assert IsConversing(w, other);
    }
  }

  // ---------------------------------------------------------------- asking

  lemma RecordingKeeps(w: World, p: PreparedAnalysis)
    requires AllConverse(w) && p.analysisId !in w.records && HasOwnDiff(p)
    ensures AllConverse(RecordPrepared(w, p))
  {
    var w' := RecordPrepared(w, p);
    var events := w'.records[p.analysisId].events;
    assert |events| == 1 && events[0].payload == AnalysisPrepared(p);
    assert events[..0] == [];
    forall id | id in w'.records ensures IsConversing(w', id) {
      if id != p.analysisId { assert IsConversing(w, id); }
    }
  }

  lemma AskingKeeps(w: World, id: string, token: string)
    requires AllConverse(w) && id in w.records
    ensures AllConverse(EnsureRequest(w, id, token).0)
    ensures EnsureRequest(w, id, token).1 in Talk(EnsureRequest(w, id, token).0.records[id].events).requests
  {
    assert IsConversing(w, id);
    var events, request := w.records[id].events, RequestFor(w.records[id].prepared, token);
    RequestIsSaid(events);
    if LatestRequest(events).None? {
      LogSays(w, id, AnalysisRequested(request));
      LogKeeps(w, id, AnalysisRequested(request));
    }
  }

  /** Where it was asked before, nothing is asked again. */
  lemma AskedOnce(w: World, id: string, token: string)
    requires AllConverse(w) && AllAsked(w) && id in w.records
    ensures Talk(w.records[id].events).requests == [EnsureRequest(w, id, token).1] && EnsureRequest(w, id, token).0 == w
  {
    assert IsConversing(w, id);
    RequestIsSaid(w.records[id].events);
  }

  // ---------------------------------------------------------------- answering

  lemma AcceptKeeps(w: World, id: string, submission: PolicySubmission, request: RiskRequest, env: Surroundings)
    requires AllConverse(w) && id in w.records && Talk(w.records[id].events).requests == [request] && IsAnswerTo(submission, request)
    requires Talk(w.records[id].events).received == [] || Talk(w.records[id].events).received == [submission]
    requires Talk(w.records[id].events).applied == []
    ensures AllConverse(AcceptResult(w, id, submission, env))
    ensures id in AcceptResult(w, id, submission, env).records
    ensures Talk(AcceptResult(w, id, submission, env).records[id].events) == Dialogue([request], [submission], [submission])
  {
    assert IsConversing(w, id);
    var prior := ReceivedSubmission(w.records[id].events, submission.requestId);
    AnswerIsSaid(w.records[id].events, submission.requestId);
    PriorIsReceived(Talk(w.records[id].events).received, submission);
    var w1 := if prior.None? then Log(w, id, SubmissionReceived(submission)) else w;
    if prior.None? {
      LogSays(w, id, SubmissionReceived(submission));
      LogKeeps(w, id, SubmissionReceived(submission));
    }
    assert Talk(w1.records[id].events) == Dialogue([request], [submission], []);
    AnsweredKeeps(w1, id, submission, request, ApplyStep(w1, w.records[id].prepared, submission.policy, false, env), env);
  }

  lemma PriorIsReceived(received: seq<PolicySubmission>, submission: PolicySubmission)
    requires received == [] || received == [submission]
    ensures received == [submission] <==> exists s :: s in received && s.requestId == submission.requestId
  {
    if received == [submission] { assert received[0] in received; }
  }

  lemma AnsweredKeeps(w: World, id: string, submission: PolicySubmission, request: RiskRequest, step: GateStep, env: Surroundings)
    requires AllConverse(w) && id in w.records && Talk(w.records[id].events) == Dialogue([request], [submission], [])
    requires step == ApplyStep(w, w.records[id].prepared, submission.policy, false, env)
    ensures var w' := Log(step.world, id, SubmissionApplied(submission, step.outcome.value));
            && AllConverse(w') && id in w'.records
            && Talk(w'.records[id].events) == Dialogue([request], [submission], [submission])
  {
    ApplyGrows(w, w.records[id].prepared, submission.policy, false, env);
    GateIsSilent(w, step.world);
    SilentKeeps(w, step.world);
    assert SaysNothing(w, step.world, id);
    AppliedKeeps(step.world, id, submission, request, step.outcome.value);
  }

  lemma AppliedKeeps(w: World, id: string, submission: PolicySubmission, request: RiskRequest, outcome: IndexOutcome)
    requires AllConverse(w) && id in w.records && Talk(w.records[id].events) == Dialogue([request], [submission], [])
    ensures var w' := Log(w, id, SubmissionApplied(submission, outcome));
            && AllConverse(w') && id in w'.records
            && Talk(w'.records[id].events) == Dialogue([request], [submission], [submission])
  {
    assert IsConversing(w, id);
    LogSays(w, id, SubmissionApplied(submission, outcome));
    LogKeeps(w, id, SubmissionApplied(submission, outcome));
  }

  lemma SubmitKeepsConverse(w: World, id: string, submission: PolicySubmission, token: string, env: Surroundings)
    requires AllConverse(w)
    ensures AllConverse(SubmitStep(w, id, submission, token, env).0)
  {
    if id in w.records {
      var (w1, request) := EnsureRequest(w, id, token);
      AskingKeeps(w, id, token);
      SubmitIsAccept(w, id, submission, token, env);
      if SubmitStep(w, id, submission, token, env).0 != w && SubmitStep(w, id, submission, token, env).0 != w1 {
        SubmitAccepts(w, id, submission, token, env);
        AcceptKeeps(w1, id, submission, request, env);
      }
    }
  }

  lemma SubmitPasses(w: World, id: string, submission: PolicySubmission, token: string, env: Surroundings)
    requires id in w.records
    requires var w' := SubmitStep(w, id, submission, token, env).0; w' != w && w' != EnsureRequest(w, id, token).0
    ensures var (w1, request) := EnsureRequest(w, id, token); var events := w1.records[id].events;
            && submission.requestId == request.requestId
            && submission.policy.candidateSha256 == Some(w.records[id].prepared.candidate.sha256)
            && (ReceivedSubmission(events, request.requestId).Some? ==> ReceivedSubmission(events, request.requestId).value == submission)
            && !AppliedSubmission(events, request.requestId)
  {
  }

  /** A submission that changes the log answers the request, and was neither answered otherwise nor applied. */
  lemma SubmitAccepts(w: World, id: string, submission: PolicySubmission, token: string, env: Surroundings)
    requires AllConverse(w) && id in w.records
    requires var w' := SubmitStep(w, id, submission, token, env).0; w' != w && w' != EnsureRequest(w, id, token).0
    ensures var (w1, request) := EnsureRequest(w, id, token); var d := Talk(w1.records[id].events);
            && IsAnswerTo(submission, request) && d.requests == [request]
            && (d.received == [] || d.received == [submission]) && d.applied == []
  {
    var (w1, request) := EnsureRequest(w, id, token);
    SubmitPasses(w, id, submission, token, env);
    AskingKeeps(w, id, token);
    AnswersOnce(w1, id, submission, request);
  }

  lemma AnswersOnce(w: World, id: string, submission: PolicySubmission, request: RiskRequest)
    requires AllConverse(w) && id in w.records && request in Talk(w.records[id].events).requests
    requires submission.requestId == request.requestId
    requires submission.policy.candidateSha256 == Some(w.records[id].prepared.candidate.sha256)
    requires var events := w.records[id].events;
             && (ReceivedSubmission(events, request.requestId).Some? ==> ReceivedSubmission(events, request.requestId).value == submission)
             && !AppliedSubmission(events, request.requestId)
    ensures var d := Talk(w.records[id].events);
            && IsAnswerTo(submission, request) && d.requests == [request]
            && (d.received == [] || d.received == [submission]) && d.applied == []
  {
    assert IsConversing(w, id);
    var d := Talk(w.records[id].events);
    assert d.received == [] || (d.received == [d.received[0]] && d.received[0] in d.received);
    assert d.applied == [] || d.applied[0] in d.applied;
    AnswerIsSaid(w.records[id].events, request.requestId);
    ApplicationIsSaid(w.records[id].events, request.requestId);
  }

  /** A dispatch is a start, and then a failure or an answer. */
  lemma DispatchIsStart(w: World, id: string, answer: Option<PolicySubmission>, token: string, env: Surroundings)
    requires id in w.records
    ensures var w1, w', request := StartStep(w, id, token), DispatchStep(w, id, answer, token, env).0, EnsureRequest(w, id, token).1;
            && id in w1.records
            && w' == if answer.None? then Log(w1, id, DispatchFailed(request.requestId))
                     else SubmitStep(w1, id, answer.value, token, env).0
  {
  }

  lemma DispatchKeepsConverse(w: World, id: string, answer: Option<PolicySubmission>, token: string, env: Surroundings)
    requires AllConverse(w)
    ensures AllConverse(DispatchStep(w, id, answer, token, env).0)
  {
    if id in w.records {
      var w1, requestId := StartStep(w, id, token), EnsureRequest(w, id, token).1.requestId;
      StartKeepsConverse(w, id, token);
      DispatchIsStart(w, id, answer, token, env);
      if answer.Some? {
        SubmitKeepsConverse(w1, id, answer.value, token, env);
      } else {
        LogSays(w1, id, DispatchFailed(requestId));
        SilentKeeps(w1, Log(w1, id, DispatchFailed(requestId)));
      }
    }
  }

  // ---------------------------------------------------------------- commands

  lemma FinishKeeps(w: World, id: string, command: OperatorCommand, outcome: IndexOutcome, replacement: Option<string>,
                    env: Surroundings)
    requires AllConverse(w) && id in w.records
    ensures AllConverse(Finish(w, id, command, outcome, replacement, env).0)
  {
    LogSays(w, id, CommandCompleted(command, Some(outcome), replacement));
    SilentKeeps(w, Log(w, id, CommandCompleted(command, Some(outcome), replacement)));
  }

  lemma HoldIsSilent(w: World, p: PreparedAnalysis, code: string, env: Surroundings)
    requires AllConverse(w)
    ensures AllConverse(HoldStep(w, p, code, env).world)
  {
    HoldGrows(w, p, code, env);
    GateIsSilent(w, HoldStep(w, p, code, env).world);
    SilentKeeps(w, HoldStep(w, p, code, env).world);
  }

  lemma ApproveKeeps(w: World, id: string, command: OperatorCommand, token: string, env: Surroundings)
    requires AllConverse(w) && id in w.records && "anl_" + token !in w.records && IsFresh(w, id, command) && command.action == Approve
    ensures AllConverse(ExecuteStep(w, id, command, token, env).0)
  {
    var p, policy := w.records[id].prepared, LatestAppliedPolicy(w.records[id].events);
    if policy.Some? && policy.value.decision == ALLOW && policy.value.indexAction == INDEX {
      var step := ApplyStep(w, p, policy.value, true, env);
      FreshApproval(w, id, command, token, env);
      ApplyGrows(w, p, policy.value, true, env);
      GateIsSilent(w, step.world);
      SilentKeeps(w, step.world);
      if step.outcome.Some? { FinishKeeps(step.world, id, command, step.outcome.value, None, env); }
    }
  }

  lemma ReanalysisKeeps(w: World, p: PreparedAnalysis, token: string)
    requires AllConverse(w) && "anl_" + token !in w.records && HasOwnDiff(p)
    ensures AllConverse(ReanalysisStep(w, p, token))
  {
    var replacement := Replacement(w, p, token);
    var w1 := RecordPrepared(w, replacement);
    RecordingKeeps(w, replacement);
    var w2 := LogIfKnown(w1, p.analysisId, AnalysisSuperseded(replacement.analysisId));
    if p.analysisId in w1.records {
      LogSays(w1, p.analysisId, AnalysisSuperseded(replacement.analysisId));
      SilentKeeps(w1, w2);
    }
    AskingKeeps(w2, replacement.analysisId, token);
  }

  lemma ReanalyzeKeeps(w: World, id: string, command: OperatorCommand, token: string, env: Surroundings)
    requires AllConverse(w) && id in w.records && "anl_" + token !in w.records && IsFresh(w, id, command) && command.action == Reanalyze
    ensures AllConverse(ExecuteStep(w, id, command, token, env).0)
  {
    assert IsConversing(w, id);
    var p := w.records[id].prepared;
    var step := HoldStep(w, p, "OPERATOR_REANALYZE_HOLD", env);
    FreshReanalysis(w, id, command, token, env);
    HoldIsSilent(w, p, "OPERATOR_REANALYZE_HOLD", env);
    if env.blob == Content(p.candidate.sha256) {
      ReanalysisKeeps(step.world, p, token);
      FinishKeeps(ReanalysisStep(step.world, p, token), id, command, step.outcome.value, Some("anl_" + token), env);
    }
  }

  lemma ExecuteKeepsConverse(w: World, id: string, command: OperatorCommand, token: string, env: Surroundings)
    requires AllConverse(w) && "anl_" + token !in w.records
    ensures AllConverse(ExecuteStep(w, id, command, token, env).0)
  {
    if id in w.records && IsFresh(w, id, command) {
      match command.action
      case Approve => ApproveKeeps(w, id, command, token, env);
      case Hold =>
        var step := HoldStep(w, w.records[id].prepared, "OPERATOR_HOLD", env);
        HoldIsSilent(w, w.records[id].prepared, "OPERATOR_HOLD", env);
        FinishKeeps(step.world, id, command, step.outcome.value, None, env);
      case Reanalyze => ReanalyzeKeeps(w, id, command, token, env);
    } else {
      StaleCommandChangesNothing(w, id, command, token, env);
    }
  }

  // ---------------------------------------------------------------- over whole runs

  lemma StoreKeepsConverse(w: World, p: PreparedAnalysis, token: string)
    requires AllConverse(w) && p.analysisId !in w.records && HasOwnDiff(p)
    ensures AllConverse(StoreStep(w, p, token))
  {
    RecordingKeeps(w, p);
    AskingKeeps(RecordPrepared(w, p), p.analysisId, token);
  }

  lemma NextKeepsConverse(w: World, step: Step)
    requires AllConverse(w) && Possible(w, step)
    ensures AllConverse(Next(w, step))
  {
    match step
    case Prepare(baseline, candidate, changedBy, version, token) =>
      StoreKeepsConverse(w, NewAnalysis(w, baseline, candidate, changedBy, version, token), token);
    case Submit(id, submission, token, env) => SubmitKeepsConverse(w, id, submission, token, env);
    case Dispatch(id, answer, token, env) => DispatchKeepsConverse(w, id, answer, token, env);
    case Command(id, command, token, env) => ExecuteKeepsConverse(w, id, command, token, env);
    case Store(_, _, _, _, _, token) => StoreKeepsConverse(w, Put(step, w.clock), token);
    case Start(id, token) => if id in w.records { StartKeepsConverse(w, id, token); }
    case Fail(id, requestId) =>
      if id in w.records {
        LogSays(w, id, DispatchFailed(requestId));
        SilentKeeps(w, Next(w, step));
      }
    case Look =>
  }

  lemma StartKeepsConverse(w: World, id: string, token: string)
    requires AllConverse(w) && id in w.records
    ensures AllConverse(StartStep(w, id, token))
  {
    var (w1, request) := EnsureRequest(w, id, token);
    AskingKeeps(w, id, token);
    LogSays(w1, id, DispatchStarted(request.requestId));
    SilentKeeps(w1, StartStep(w, id, token));
  }

  ghost predicate IsAsked(w: World, id: string)
    requires id in w.records
  {
    LatestRequest(w.records[id].events).Some?
  }

  /** An analysis that was asked about stays so. */
  lemma {:induction false} AskedStays(events: seq<Event>, events': seq<Event>)
    requires |events| <= |events'| && events'[..|events|] == events && LatestRequest(events).Some?
    ensures LatestRequest(events').Some?
  {
    if |events'| > |events| {
      var before := events'[..|events'| - 1];
      assert before[..|events|] == events;
      AskedStays(events, before);
    } else {
      assert events' == events;
    }
  }

  lemma GrowsAsked(w: World, w': World)
    requires AllAsked(w) && Grows(w, w') && forall id | id in w'.records && id !in w.records :: IsAsked(w', id)
    ensures AllAsked(w')
  {
    forall id | id in w'.records ensures IsAsked(w', id) {
      if id in w.records {
        assert RecordGrows(w.records[id], w'.records[id]);
        AskedStays(w.records[id].events, w'.records[id].events);
      }
    }
  }

  lemma AskingAsks(w: World, id: string, token: string)
    requires id in w.records
    ensures IsAsked(EnsureRequest(w, id, token).0, id)
  {
    if LatestRequest(w.records[id].events).None? {
      Logged(w, id, AnalysisRequested(RequestFor(w.records[id].prepared, token)));
    }
  }

  lemma NextKeepsAsked(w: World, step: Step)
    requires AllAsked(w) && Possible(w, step)
    ensures AllAsked(Next(w, step))
  {
    NextGrows(w, step);
    NewIsAsked(w, step);
    GrowsAsked(w, Next(w, step));
  }

  lemma NewIsAsked(w: World, step: Step)
    requires Possible(w, step)
    ensures forall id | id in Next(w, step).records && id !in w.records :: IsAsked(Next(w, step), id)
  {
    match step
    case Prepare(baseline, candidate, changedBy, version, token) =>
      var p := NewAnalysis(w, baseline, candidate, changedBy, version, token);
      AskingAsks(RecordPrepared(w, p), p.analysisId, token);
    case Submit(id, submission, token, env) => SubmitAddsNone(w, id, submission, token, env);
    case Dispatch(id, answer, token, env) =>
      if id in w.records && answer.Some? {
        var (w1, request) := EnsureRequest(w, id, token);
        SubmitAddsNone(Log(w1, id, DispatchStarted(request.requestId)), id, answer.value, token, env);
      }
    case Command(id, command, token, env) => if id in w.records { ReplacementIsAsked(w, id, command, token, env); }
    case Store(_, _, _, _, _, token) =>
      AskingAsks(RecordPrepared(w, Put(step, w.clock)), Put(step, w.clock).analysisId, token);
    case _ =>
  }

  lemma ReplacementIsAsked(w: World, id: string, command: OperatorCommand, token: string, env: Surroundings)
    requires id in w.records && "anl_" + token !in w.records
    ensures var w', newId := ExecuteStep(w, id, command, token, env).0, "anl_" + token;
            w'.records.Keys <= w.records.Keys + {newId} && (newId in w'.records ==> IsAsked(w', newId))
  {
    CommandAddsRepeat(w, id, command, token, env);
    if command.action == Reanalyze && IsFresh(w, id, command) {
      var p := w.records[id].prepared;
      var step := HoldStep(w, p, "OPERATOR_REANALYZE_HOLD", env);
      FreshReanalysis(w, id, command, token, env);
      ReanalysisAsks(step.world, p, token);
      var w1 := ReanalysisStep(step.world, p, token);
      if env.blob == Content(p.candidate.sha256) {
        Logged(w1, id, CommandCompleted(command, Some(step.outcome.value), Some("anl_" + token)));
      }
    } else if IsFresh(w, id, command) {
      OthersAddNone(w, id, command, token, env);
    } else {
      StaleCommandChangesNothing(w, id, command, token, env);
    }
  }

  lemma OthersAddNone(w: World, id: string, command: OperatorCommand, token: string, env: Surroundings)
    requires id in w.records && "anl_" + token !in w.records && command.action != Reanalyze
    ensures ExecuteStep(w, id, command, token, env).0.records.Keys == w.records.Keys
  {
  }

  lemma ReanalysisAsks(w: World, p: PreparedAnalysis, token: string)
    requires "anl_" + token !in w.records
    ensures IsAsked(ReanalysisStep(w, p, token), "anl_" + token)
  {
    var replacement := Replacement(w, p, token);
    var w1 := RecordPrepared(w, replacement);
    var w2 := LogIfKnown(w1, p.analysisId, AnalysisSuperseded(replacement.analysisId));
    AskingAsks(w2, replacement.analysisId, token);
    assert ReanalysisStep(w, p, token) == EnsureRequest(w2, replacement.analysisId, token).0;
  }

  /** In every state of every run each analysis has one request, which carries it field by field; at most one answer
      to it was received, bound to its candidate; and only that answer was applied, at most once. */
  lemma {:induction false} RunsConverse(ws: seq<World>, steps: seq<Step>, n: nat)
    requires IsRun(ws, steps) && n < |ws|
    ensures AllConverse(ws[n]) && AllAsked(ws[n])
  {
    if n > 0 {
      RunsConverse(ws, steps, n - 1);
      StaysConversing(ws, steps, n - 1);
    }
  }

  lemma StaysConversing(ws: seq<World>, steps: seq<Step>, n: nat)
    requires IsRun(ws, steps) && n < |steps| && AllConverse(ws[n]) && AllAsked(ws[n])
    ensures AllConverse(ws[n + 1]) && AllAsked(ws[n + 1])
  {
    TakesStep(ws, steps, n);
    NextKeepsConverse(ws[n], steps[n]);
    NextKeepsAsked(ws[n], steps[n]);
  }
}
