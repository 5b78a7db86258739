/** Short runs, from every empty gateway, in which a failing dispatch costs an analysis the console's trust. */
module DispatchWitnesses {
  import opened Wrappers
  import opened Contracts
  import opened Gate
  import opened Operations
  import opened Dashboard
  import opened Runs
  import opened LogViews
  import opened AuthoritySafety
  import opened FirstApproval
  import Interleaving

  /** A run that goes on by one step. */
  ghost predicate GoesOn(ws: seq<World>, steps: seq<Step>, step: Step, ws': seq<World>, steps': seq<Step>) {
    && IsRun(ws', steps') && |steps'| == |steps| + 1 && |ws'| == |ws| + 1
    && ws'[..|ws|] == ws && steps'[..|steps|] == steps && steps'[|steps|] == step
  }

  lemma RunOn(ws: seq<World>, steps: seq<Step>, step: Step) returns (ws': seq<World>, steps': seq<Step>)
    requires IsRun(ws, steps) && Possible(ws[|steps|], step)
    ensures GoesOn(ws, steps, step, ws', steps') && ws'[|steps'|] == Next(ws[|steps|], step)
  {
    var w' := Next(ws[|steps|], step);
    ws', steps' := ws + [w'], steps + [step];
    forall i | 0 <= i < |steps'| ensures Possible(ws'[i], steps'[i]) && ws'[i + 1] == Next(ws'[i], steps'[i]) {
      TakesOneMore(ws, steps, step, w', i);
    }
  }

  lemma TakesOneMore(ws: seq<World>, steps: seq<Step>, step: Step, w': World, i: nat)
    requires IsRun(ws, steps) && Possible(ws[|steps|], step) && w' == Next(ws[|steps|], step) && i <= |steps|
    ensures var ws', steps' := ws + [w'], steps + [step];
            Possible(ws'[i], steps'[i]) && ws'[i + 1] == Next(ws'[i], steps'[i])
  {
    if i < |steps| { TakesStep(ws, steps, i); }
  }

  lemma WasThere(ws: seq<World>, steps: seq<Step>, step: Step, ws': seq<World>, steps': seq<Step>, i: nat)
    requires GoesOn(ws, steps, step, ws', steps') && i < |ws|
    ensures ws'[i] == ws[i] && (i < |steps| ==> steps'[i] == steps[i])
  {
    assert ws'[..|ws|][i] == ws[i];
    assert i < |steps| ==> steps'[..|steps|][i] == steps[i];
  }

  /** The analysis was prepared with its request, and B has not answered. */
  ghost predicate Requested(w: World, p: PreparedAnalysis, token: string) {
    && p.analysisId in w.records && w.records[p.analysisId].prepared == p && IsClean(p)
    && ViewOf(w, p.analysisId) == FirstView(p, token) && Unanswered(w.records[p.analysisId].events, "req_" + token)
  }

  lemma IsRequested(w: World, w1: World, p: PreparedAnalysis, token: string)
    requires Added(w, w1, p, token) && Unanswered(w1.records[p.analysisId].events, "req_" + token) && IsClean(p)
    ensures Requested(w1, p, token)
  {
  }

  lemma RequestIsOffered(w: World, p: PreparedAnalysis, token: string)
    requires AllSound(w) && Requested(w, p, token)
    ensures CanDispatch(StatusOf(w, p.analysisId), p)
  {
    assert Sound(w, p.analysisId);
    SoundIsTrusted(w, p.analysisId);
  }

  lemma StartStaysRequested(w: World, p: PreparedAnalysis, token: string, token': string)
    requires AllSound(w) && Requested(w, p, token)
    ensures Requested(Next(w, Start(p.analysisId, token')), p, token)
  {
    StartReads(w, p.analysisId, token');
    StartStaysUnanswered(w, p.analysisId, token', "req_" + token);
    StaysRequested(w, StartStep(w, p.analysisId, token'), p, token);
  }

  lemma StartStaysUnanswered(w: World, id: string, token: string, requestId: string)
    requires AllSound(w) && id in w.records && Unanswered(w.records[id].events, requestId)
    ensures id in StartStep(w, id, token).records && Unanswered(StartStep(w, id, token).records[id].events, requestId)
  {
    StartIsLogged(w, id, token);
    StartedIsUnanswered(w, id, ViewOf(w, id).request.value.requestId, requestId);
  }

  lemma StaysRequested(w: World, w': World, p: PreparedAnalysis, token: string)
    requires Requested(w, p, token) && Touched(w, w', p.analysisId, ViewOf(w, p.analysisId))
    requires Unanswered(w'.records[p.analysisId].events, "req_" + token)
    ensures Requested(w', p, token)
  {
  }

  lemma StartedIsUnanswered(w: World, id: string, started: string, requestId: string)
    requires id in w.records && Unanswered(w.records[id].events, requestId)
    ensures Unanswered(Log(w, id, DispatchStarted(started)).records[id].events, requestId)
  {
    var events, events' := w.records[id].events, Log(w, id, DispatchStarted(started)).records[id].events;
    LogStaysCalm(w, id, DispatchStarted(started));
    Logged(w, id, DispatchStarted(started));
    assert events'[..|events'| - 1] == events;
    assert ReceivedSubmission(events', requestId) == ReceivedSubmission(events, requestId);
    forall i | 0 <= i < |events'|
      ensures !(events'[i].payload.SubmissionApplied? && events'[i].payload.submission.requestId == requestId)
    {
      if i < |events| { assert events'[i] == events'[..|events|][i]; }
    }
  }

  lemma AllowIsAnswered(w: World, p: PreparedAnalysis, token: string, submission: PolicySubmission, env: Surroundings)
    requires AllSound(w) && Requested(w, p, token) && IsCalm(env, p.candidate.sha256)
    requires submission.requestId == "req_" + token && Allows(submission.policy, p.candidate.sha256)
    ensures var w' := Next(w, Submit(p.analysisId, submission, token, env));
            && AllSound(w') && p.analysisId in w'.records && w'.records[p.analysisId].prepared == p
            && Trusted(w', p.analysisId) && !CanDispatch(StatusOf(w', p.analysisId), p)
  {
    var id := p.analysisId;
    assert Sound(w, id);
    SubmitAccepts(w, p, token, submission, env);
    AnswerAwaitsApproval(w, id, submission, env);
    NextKeepsSound(w, Submit(id, submission, token, env));
    AwaitingIsNotOffered(Next(w, Submit(id, submission, token, env)), p, submission.policy);
  }

  lemma AwaitingIsNotOffered(w: World, p: PreparedAnalysis, policy: PolicyResult)
    requires AllSound(w) && p.analysisId in w.records && w.records[p.analysisId].prepared == p
    requires AwaitsApproval(w, p.analysisId, policy)
    ensures Trusted(w, p.analysisId) && !CanDispatch(StatusOf(w, p.analysisId), p)
  {
    assert Sound(w, p.analysisId);
    SoundIsTrusted(w, p.analysisId);
  }

  lemma Prepares(w: World, baseline: Snapshot, candidate: Snapshot, changedBy: string, token: string)
    returns (ws: seq<World>, steps: seq<Step>)
    requires Initial(w) && baseline.documentId == candidate.documentId && HardBlocking(candidate.artifacts) == []
    ensures IsRun(ws, steps) && |steps| == 1 && ws[0] == w && AllSound(ws[1])
    ensures Requested(ws[1], NewAnalysis(w, baseline, candidate, changedBy, 1, token), token)
  {
    var step := Prepare(baseline, candidate, changedBy, 1, token);
    NextKeepsSound(w, step);
    PreparedIsUnanswered(w, NewAnalysis(w, baseline, candidate, changedBy, 1, token), token);
    IsRequested(w, Next(w, step), NewAnalysis(w, baseline, candidate, changedBy, 1, token), token);
    ws, steps := RunOn([w], [], step);
    WasThere([w], [], step, ws, steps, 0);
  }

  lemma Starts(ws: seq<World>, steps: seq<Step>, p: PreparedAnalysis, token: string) returns (ws': seq<World>, steps': seq<Step>)
    requires IsRun(ws, steps) && AllSound(ws[|steps|]) && Requested(ws[|steps|], p, token)
    ensures GoesOn(ws, steps, Start(p.analysisId, token), ws', steps')
    ensures AllSound(ws'[|steps'|]) && Requested(ws'[|steps'|], p, token)
  {
    StartStaysRequested(ws[|steps|], p, token, token);
    NextKeepsSound(ws[|steps|], Start(p.analysisId, token));
    ws', steps' := RunOn(ws, steps, Start(p.analysisId, token));
  }

  /** B's answer is applied, and the console trusts the analysis and offers no dispatch of it. */
  ghost predicate Answered(w: World, p: PreparedAnalysis) {
    && AllSound(w) && p.analysisId in w.records && w.records[p.analysisId].prepared == p
    && Trusted(w, p.analysisId) && !CanDispatch(StatusOf(w, p.analysisId), p)
  }

  lemma Answers(ws: seq<World>, steps: seq<Step>, p: PreparedAnalysis, token: string, submission: PolicySubmission, env: Surroundings)
    returns (ws': seq<World>, steps': seq<Step>)
    requires IsRun(ws, steps) && AllSound(ws[|steps|]) && Requested(ws[|steps|], p, token) && IsCalm(env, p.candidate.sha256)
    requires submission.requestId == "req_" + token && Allows(submission.policy, p.candidate.sha256)
    ensures GoesOn(ws, steps, Submit(p.analysisId, submission, token, env), ws', steps') && Answered(ws'[|steps'|], p)
  {
    AllowIsAnswered(ws[|steps|], p, token, submission, env);
    ws', steps' := RunOn(ws, steps, Submit(p.analysisId, submission, token, env));
  }

  ghost predicate Distrusted(w: World, id: string) {
    id in w.records && !Trusted(w, id)
  }

  lemma FailsLate(ws: seq<World>, steps: seq<Step>, p: PreparedAnalysis, requestId: string) returns (ws': seq<World>, steps': seq<Step>)
    requires IsRun(ws, steps) && Answered(ws[|steps|], p)
    ensures GoesOn(ws, steps, Fail(p.analysisId, requestId), ws', steps') && Distrusted(ws'[|steps'|], p.analysisId)
  {
    Interleaving.LateFailureExactly(ws[|steps|], p.analysisId, requestId);
    ws', steps' := RunOn(ws, steps, Fail(p.analysisId, requestId));
  }

  lemma FailsWhole(ws: seq<World>, steps: seq<Step>, p: PreparedAnalysis, token: string, env: Surroundings)
    returns (ws': seq<World>, steps': seq<Step>)
    requires IsRun(ws, steps) && Answered(ws[|steps|], p) && env.removeFault.None?
    ensures GoesOn(ws, steps, Dispatch(p.analysisId, None, token, env), ws', steps') && Distrusted(ws'[|steps'|], p.analysisId)
  {
    FailedDispatchExactly(ws[|steps|], p.analysisId, token, env);
    ws', steps' := RunOn(ws, steps, Dispatch(p.analysisId, None, token, env));
  }

  /** A dispatch is started while the console offers it, B's ALLOW arrives, and then the dispatch fails. */
  lemma LateFailureLosesTrust(w: World, baseline: Snapshot, candidate: Snapshot, changedBy: string, token: string,
                              submission: PolicySubmission, env: Surroundings) returns (ws: seq<World>, steps: seq<Step>)
    requires Initial(w) && baseline.documentId == candidate.documentId
    requires HardBlocking(candidate.artifacts) == [] && IsCalm(env, candidate.sha256)
    requires submission.requestId == "req_" + token && Allows(submission.policy, candidate.sha256)
    ensures var id, p := "anl_" + token, NewAnalysis(w, baseline, candidate, changedBy, 1, token);
            && IsRun(ws, steps) && |steps| == 4 && ws[0] == w
            && steps[1] == Start(id, token) && steps[2] == Submit(id, submission, token, env) && steps[3] == Fail(id, "req_" + token)
            && id in ws[1].records && CanDispatch(StatusOf(ws[1], id), p)
            && Answered(ws[3], p) && Distrusted(ws[4], id)
  {
    var p := NewAnalysis(w, baseline, candidate, changedBy, 1, token);
    var ws1, steps1 := Prepares(w, baseline, candidate, changedBy, token);
    RequestIsOffered(ws1[1], p, token);
    var ws2, steps2 := Starts(ws1, steps1, p, token);
    var ws3, steps3 := Answers(ws2, steps2, p, token, submission, env);
    ws, steps := FailsLate(ws3, steps3, p, "req_" + token);
    WasThere(ws1, steps1, Start(p.analysisId, token), ws2, steps2, 0);
    WasThere(ws1, steps1, Start(p.analysisId, token), ws2, steps2, 1);
    forall i | 0 <= i < 3 ensures ws3[i] == ws2[i] && (i < 2 ==> steps3[i] == steps2[i]) {
      WasThere(ws2, steps2, Submit(p.analysisId, submission, token, env), ws3, steps3, i);
    }
    forall i | 0 <= i < 4 ensures ws[i] == ws3[i] && (i < 3 ==> steps[i] == steps3[i]) {
      WasThere(ws3, steps3, Fail(p.analysisId, "req_" + token), ws, steps, i);
    }
  }

  /** The analyzer is dispatched after B's ALLOW, where the console offers no dispatch, and raises. */
  lemma FailedDispatchLosesTrust(w: World, baseline: Snapshot, candidate: Snapshot, changedBy: string, token: string,
                                 submission: PolicySubmission, env: Surroundings) returns (ws: seq<World>, steps: seq<Step>)
    requires Initial(w) && baseline.documentId == candidate.documentId
    requires HardBlocking(candidate.artifacts) == [] && IsCalm(env, candidate.sha256)
    requires submission.requestId == "req_" + token && Allows(submission.policy, candidate.sha256)
    ensures var id, p := "anl_" + token, NewAnalysis(w, baseline, candidate, changedBy, 1, token);
            && IsRun(ws, steps) && |steps| == 3 && ws[0] == w
            && steps[1] == Submit(id, submission, token, env) && steps[2] == Dispatch(id, None, token, env)
            && Answered(ws[2], p) && Distrusted(ws[3], id)
  {
    var p := NewAnalysis(w, baseline, candidate, changedBy, 1, token);
    var ws1, steps1 := Prepares(w, baseline, candidate, changedBy, token);
    var ws2, steps2 := Answers(ws1, steps1, p, token, submission, env);
    ws, steps := FailsWhole(ws2, steps2, p, token, env);
    WasThere(ws1, steps1, Submit(p.analysisId, submission, token, env), ws2, steps2, 0);
    forall i | 0 <= i < 3 ensures ws[i] == ws2[i] && (i < 2 ==> steps[i] == steps2[i]) {
      WasThere(ws2, steps2, Dispatch(p.analysisId, None, token, env), ws, steps, i);
    }
  }
}
