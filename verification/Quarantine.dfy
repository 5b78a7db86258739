/** A quarantine is for good: on every run, no step about a quarantined analysis indexes anything. */
module Quarantine {
  import opened Wrappers
  import opened Contracts
  import opened VersionedIndex
  import opened Gate
  import opened GateLaws
  import opened Operations
  import opened Runs
  import opened LostUpdates

  ghost predicate IsQuarantined(w: World, id: string) {
    id in w.records && AlreadyQuarantined(w.records[id].events)
  }

  lemma QuarantineLasts(w: World, w': World, id: string)
    requires IsQuarantined(w, id) && Grows(w, w')
    ensures IsQuarantined(w', id)
  {
    var events, events' := w.records[id].events, w'.records[id].events;
    var i :| 0 <= i < |events| && IsQuarantine(events[i].payload);
    assert RecordGrows(w.records[id], w'.records[id]);
    assert events'[i] == events'[..|events|][i];
  }

  // ---------------------------------------------------------------- analyses are kept under their identifiers

  ghost predicate IsKeyed(w: World) {
    forall id | id in w.records :: w.records[id].prepared.analysisId == id
  }

  /** At most the analysis of a new identifier is new. */
  ghost predicate AddsKeyed(w: World, w': World) {
    forall id | id in w'.records && id !in w.records :: w'.records[id].prepared.analysisId == id
  }

  lemma GrowsKeyed(w: World, w': World)
    requires IsKeyed(w) && Grows(w, w') && AddsKeyed(w, w')
    ensures IsKeyed(w')
  {
    forall id | id in w'.records ensures w'.records[id].prepared.analysisId == id {
      if id in w.records { assert RecordGrows(w.records[id], w'.records[id]); }
    }
  }

  lemma NextKeepsKeyed(w: World, step: Step)
    requires IsKeyed(w) && Possible(w, step)
    ensures IsKeyed(Next(w, step))
  {
    NextGrows(w, step);
    NextAddsKeyed(w, step);
    GrowsKeyed(w, Next(w, step));
  }

  lemma NextAddsKeyed(w: World, step: Step)
    requires Possible(w, step)
    ensures AddsKeyed(w, Next(w, step))
  {
    match step
    case Submit(id, submission, token, env) => SubmitAddsNone(w, id, submission, token, env);
    case Dispatch(id, answer, token, env) =>
      if id in w.records && answer.Some? {
        var (w1, request) := EnsureRequest(w, id, token);
        SubmitAddsNone(Log(w1, id, DispatchStarted(request.requestId)), id, answer.value, token, env);
      }
    case Command(id, command, token, env) =>
      if id in w.records { CommandAddsRepeat(w, id, command, token, env); }
    case _ =>
  }

  // ---------------------------------------------------------------- one step

  /** At most the candidate of the analysis goes. */
  ghost predicate AtMostRemoves(w: World, index': Index, p: PreparedAnalysis) {
    index' == w.index || index' == Removed(w.index, p.documentId, p.candidate.sha256)
  }

  lemma SubmitOnlyRemoves(w: World, id: string, submission: PolicySubmission, token: string, env: Surroundings)
    requires WellFormed(w.index) && IsKeyed(w) && IsQuarantined(w, id)
    ensures AtMostRemoves(w, SubmitStep(w, id, submission, token, env).0.index, w.records[id].prepared)
  {
    var w1 := EnsureRequest(w, id, token).0;
    EnsureGrows(w, id, token);
    QuarantineLasts(w, w1, id);
    AcceptOnlyRemoves(w1, id, submission, env);
    SubmitIndex(w, id, submission, token, env);
  }

  lemma SubmitIndex(w: World, id: string, submission: PolicySubmission, token: string, env: Surroundings)
    requires id in w.records
    ensures var index' := SubmitStep(w, id, submission, token, env).0.index;
            index' == w.index || index' == AcceptResult(EnsureRequest(w, id, token).0, id, submission, env).index
  {
  }

  lemma AcceptOnlyRemoves(w: World, id: string, submission: PolicySubmission, env: Surroundings)
    requires WellFormed(w.index) && IsQuarantined(w, id) && w.records[id].prepared.analysisId == id
    ensures AtMostRemoves(w, AcceptResult(w, id, submission, env).index, w.records[id].prepared)
  {
    var w1 := Log(w, id, SubmissionReceived(submission));
    Logged(w, id, SubmissionReceived(submission));
    QuarantineLasts(w, w1, id);
    QuarantineIsFinal(w, w.records[id].prepared, submission.policy, false, env);
    QuarantineIsFinal(w1, w.records[id].prepared, submission.policy, false, env);
  }

  lemma DispatchOnlyRemoves(w: World, id: string, answer: Option<PolicySubmission>, token: string, env: Surroundings)
    requires WellFormed(w.index) && IsKeyed(w) && IsQuarantined(w, id)
    ensures AtMostRemoves(w, DispatchStep(w, id, answer, token, env).0.index, w.records[id].prepared)
  {
    if answer.Some? {
      var (w1, request) := EnsureRequest(w, id, token);
      var w2 := Log(w1, id, DispatchStarted(request.requestId));
      EnsureGrows(w, id, token);
      Logged(w1, id, DispatchStarted(request.requestId));
      GrowsTransitive(w, w1, w2);
      QuarantineLasts(w, w2, id);
      SubmitOnlyRemoves(w2, id, answer.value, token, env);
    }
  }

  lemma CommandOnlyRemoves(w: World, id: string, command: OperatorCommand, token: string, env: Surroundings)
    requires WellFormed(w.index) && IsKeyed(w) && IsQuarantined(w, id) && "anl_" + token !in w.records
    ensures AtMostRemoves(w, ExecuteStep(w, id, command, token, env).0.index, w.records[id].prepared)
  {
    var p, policy := w.records[id].prepared, LatestAppliedPolicy(w.records[id].events);
    CommandIndex(w, id, command, token, env);
    if command.action == Approve && policy.Some? {
      QuarantineIsFinal(w, p, policy.value, true, env);
    }
    HoldOnlyRemoves(w, p, "OPERATOR_HOLD", env);
    HoldOnlyRemoves(w, p, "OPERATOR_REANALYZE_HOLD", env);
  }

  lemma HoldOnlyRemoves(w: World, p: PreparedAnalysis, code: string, env: Surroundings)
    ensures AtMostRemoves(w, HoldStep(w, p, code, env).world.index, p)
  {
  }

  /** What a command does to the index is what the gate does. */
  lemma CommandIndex(w: World, id: string, command: OperatorCommand, token: string, env: Surroundings)
    requires id in w.records && "anl_" + token !in w.records
    ensures var index', p := ExecuteStep(w, id, command, token, env).0.index, w.records[id].prepared;
            var policy := LatestAppliedPolicy(w.records[id].events);
            || index' == w.index
            || (command.action == Approve && policy.Some? && index' == ApplyStep(w, p, policy.value, true, env).world.index)
            || index' == HoldStep(w, p, "OPERATOR_HOLD", env).world.index
            || index' == HoldStep(w, p, "OPERATOR_REANALYZE_HOLD", env).world.index
  {
  }

  /** The step is about the analysis. */
  predicate IsAbout(step: Step, id: string) {
    (step.Submit? || step.Dispatch? || step.Command? || step.Start? || step.Fail?) && step.id == id
  }

  lemma StepOnlyRemoves(w: World, step: Step, id: string)
    requires WellFormed(w.index) && IsKeyed(w) && IsQuarantined(w, id) && Possible(w, step) && IsAbout(step, id)
    ensures AtMostRemoves(w, Next(w, step).index, w.records[id].prepared)
  {
    match step
    case Submit(_, submission, token, env) => SubmitOnlyRemoves(w, id, submission, token, env);
    case Dispatch(_, answer, token, env) => DispatchOnlyRemoves(w, id, answer, token, env);
    case Command(_, command, token, env) => CommandOnlyRemoves(w, id, command, token, env);
    case _ =>
  }

  // ---------------------------------------------------------------- over whole runs

  lemma {:induction false} RunsAreKeyed(ws: seq<World>, steps: seq<Step>, n: nat)
    requires IsRun(ws, steps) && n < |ws|
    ensures IsKeyed(ws[n])
  {
    if n > 0 {
      RunsAreKeyed(ws, steps, n - 1);
      StaysKeyed(ws, steps, n - 1);
    }
  }

  lemma StaysKeyed(ws: seq<World>, steps: seq<Step>, n: nat)
    requires IsRun(ws, steps) && n < |steps| && IsKeyed(ws[n])
    ensures IsKeyed(ws[n + 1])
  {
    TakesStep(ws, steps, n);
    NextKeepsKeyed(ws[n], steps[n]);
  }

  lemma {:induction false} StaysQuarantined(ws: seq<World>, steps: seq<Step>, i: nat, j: nat, id: string)
    requires IsRun(ws, steps) && i <= j < |ws| && IsQuarantined(ws[i], id)
    ensures IsQuarantined(ws[j], id)
    decreases j - i
  {
    if i < j {
      TakesStep(ws, steps, i);
      NextGrows(ws[i], steps[i]);
      QuarantineLasts(ws[i], ws[i + 1], id);
      StaysQuarantined(ws, steps, i + 1, j, id);
    }
  }

  /** Once a quarantine is logged it stays logged, and every later step about that analysis leaves the index
      alone or takes its candidate out. */
  lemma QuarantinedIsNeverIndexed(ws: seq<World>, steps: seq<Step>, i: nat, j: nat, id: string)
    requires IsRun(ws, steps) && i <= j < |steps| && IsQuarantined(ws[i], id) && IsAbout(steps[j], id)
    ensures IsQuarantined(ws[j], id) && AtMostRemoves(ws[j], ws[j + 1].index, ws[j].records[id].prepared)
  {
    StaysQuarantined(ws, steps, i, j, id);
    RunsAreKeyed(ws, steps, j);
    RunsAreWellFormed(ws, steps, j);
    TakesStep(ws, steps, j);
    StepOnlyRemoves(ws[j], steps[j], id);
  }
}
