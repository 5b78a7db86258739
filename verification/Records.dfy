/** What every operation writes into the audit log: these events, in this order, and no others. */
module Records {
  import opened Wrappers
  import opened Contracts
  import opened VersionedIndex
  import opened Gate
  import opened GateVerdicts
  import opened Operations
  import opened Runs
  import opened Conversations
  import opened Answers
  import opened CommandLaws
  import AuditChain
  import LogViews

  function Payloads(events: seq<Event>): seq<Payload> {
    seq(|events|, i requires 0 <= i < |events| => events[i].payload)
  }

  /** The log of the analysis grew by these events. */
  ghost predicate Writes(w: World, w': World, id: string, payloads: seq<Payload>) {
    && id in w.records && id in w'.records
    && Payloads(w'.records[id].events) == Payloads(w.records[id].events) + payloads
  }

  /** No log but that of the analysis changed. */
  ghost predicate Spares(w: World, w': World, id: string) {
    w'.records.Keys == w.records.Keys && forall other | other in w.records && other != id :: w'.records[other] == w.records[other]
  }

  lemma AppendsWrites(w: World, w': World, id: string, payloads: seq<Payload>)
    requires Appends(w, w', id, payloads)
    ensures Writes(w, w', id, payloads) && Spares(w, w', id)
  {
    var events, events' := w.records[id].events, w'.records[id].events;
    forall i | 0 <= i < |events'| ensures Payloads(events')[i] == (Payloads(events) + payloads)[i] {
      if i < |events| { assert events'[i] == events'[..|events|][i]; }
    }
  }

  lemma LogWrites(w: World, id: string, payload: Payload)
    requires id in w.records
    ensures Writes(w, Log(w, id, payload), id, [payload]) && Spares(w, Log(w, id, payload), id)
  {
    LogAppends(w, id, payload);
    AppendsWrites(w, Log(w, id, payload), id, [payload]);
  }

  lemma WritesTwice(w: World, w1: World, w2: World, id: string, a: seq<Payload>, b: seq<Payload>)
    requires Writes(w, w1, id, a) && Spares(w, w1, id) && Writes(w1, w2, id, b) && Spares(w1, w2, id)
    ensures Writes(w, w2, id, a + b) && Spares(w, w2, id)
  {
    assert Payloads(w.records[id].events) + a + b == Payloads(w.records[id].events) + (a + b);
  }

  // ---------------------------------------------------------------- preparing and dispatching

  /** A new analysis starts its log with itself and its request. */
  lemma StoringWrites(w: World, p: PreparedAnalysis, token: string)
    requires p.analysisId !in w.records
    ensures var w' := StoreStep(w, p, token);
            && w'.records.Keys == w.records.Keys + {p.analysisId} && w'.records[p.analysisId].prepared == p
            && (forall other | other in w.records :: w'.records[other] == w.records[other])
            && Payloads(w'.records[p.analysisId].events) == [AnalysisPrepared(p), AnalysisRequested(RequestFor(p, token))]
  {
    var w1 := RecordPrepared(w, p);
    var events := w1.records[p.analysisId].events;
    assert |events| == 1 && events[0].payload == AnalysisPrepared(p) && events[..0] == [];
    assert LatestRequest(events).None?;
    LogWrites(w1, p.analysisId, AnalysisRequested(RequestFor(p, token)));
    assert Payloads(events) == [AnalysisPrepared(p)];
  }

  /** What preparing stores: the two snapshots, their diff, the version that is current, and who changed it and when. */
  lemma PreparingWrites(w: World, baseline: Snapshot, candidate: Snapshot, changedBy: string, version: nat, token: string)
    requires "anl_" + token !in w.records
    ensures var (w', result) := PrepareStep(w, baseline, candidate, changedBy, version, token);
            var current := CurrentOf(w.index, candidate.documentId);
            && (result.Ok? <==> current.None? || current == Some(baseline.sha256))
            && (result.Err? ==> w' == w)
            && (result.Ok? ==>
                  && var p := PreparedAnalysis(
                       "anl_" + token, candidate.documentId, baseline, candidate, DiffReport(baseline.sha256, candidate.sha256),
                       current, version, changedBy, w.clock, 1, None);
                  && result.value == p && w'.index == w.index && w'.records.Keys == w.records.Keys + {p.analysisId}
                  && (forall other | other in w.records :: w'.records[other] == w.records[other])
                  && w'.records[p.analysisId].prepared == p
                  && Payloads(w'.records[p.analysisId].events) == [AnalysisPrepared(p), AnalysisRequested(RequestFor(p, token))])
  {
    var (w', result) := PrepareStep(w, baseline, candidate, changedBy, version, token);
    if result.Ok? { StoringWrites(w, result.value, token); }
  }

  /** A reanalysis stores the same evidence as a further attempt, made now. It writes into the old log that it is
      superseded, and starts a new one with the new analysis and its request. */
  lemma ReanalysisWrites(w: World, p: PreparedAnalysis, token: string)
    requires "anl_" + token !in w.records && p.analysisId in w.records
    ensures var w', newId := ReanalysisStep(w, p, token), "anl_" + token; var q := w'.records[newId].prepared;
            && q == PreparedAnalysis(newId, p.documentId, p.baseline, p.candidate, p.diff, p.expectedCurrent, p.version, p.changedBy,
                                     w.clock, p.attempt + 1, Some(p.analysisId))
            && Writes(w, w', p.analysisId, [AnalysisSuperseded(newId)])
            && Payloads(w'.records[newId].events) == [AnalysisPrepared(q), AnalysisRequested(RequestFor(q, token))]
            && forall other | other in w.records && other != p.analysisId :: w'.records[other] == w.records[other]
  {
    var q := Replacement(w, p, token);
    var w1 := RecordPrepared(w, q);
    var w2 := Log(w1, p.analysisId, AnalysisSuperseded(q.analysisId));
    var events := w1.records[q.analysisId].events;
    assert |events| == 1 && events[0].payload == AnalysisPrepared(q) && events[..0] == [];
    assert Payloads(events) == [AnalysisPrepared(q)];
    LogWrites(w1, p.analysisId, AnalysisSuperseded(q.analysisId));
    assert w2.records[q.analysisId] == w1.records[q.analysisId];
    assert LatestRequest(w2.records[q.analysisId].events).None?;
    LogWrites(w2, q.analysisId, AnalysisRequested(RequestFor(q, token)));
  }

  /** The request that was logged for the analysis. */
  ghost function RequestOf(w: World, id: string): RiskRequest
    requires id in w.records && LatestRequest(w.records[id].events).Some?
  {
    LatestRequest(w.records[id].events).value
  }

  /** Starting a dispatch says so; one that fails says that as well. */
  lemma DispatchWrites(w: World, id: string, token: string, env: Surroundings)
    requires AllConverse(w) && AllAsked(w) && id in w.records
    ensures var requestId := RequestOf(w, id).requestId;
            && Writes(w, StartStep(w, id, token), id, [DispatchStarted(requestId)]) && Spares(w, StartStep(w, id, token), id)
            && Writes(w, DispatchStep(w, id, None, token, env).0, id, [DispatchStarted(requestId), DispatchFailed(requestId)])
            && Spares(w, DispatchStep(w, id, None, token, env).0, id)
  {
    var requestId := RequestOf(w, id).requestId;
    AskedOnce(w, id, token);
    var w1 := Log(w, id, DispatchStarted(requestId));
    LogWrites(w, id, DispatchStarted(requestId));
    LogWrites(w1, id, DispatchFailed(requestId));
    DispatchIsStart(w, id, None, token, env);
    WritesTwice(w, w1, Log(w1, id, DispatchFailed(requestId)), id, [DispatchStarted(requestId)], [DispatchFailed(requestId)]);
    assert [DispatchStarted(requestId)] + [DispatchFailed(requestId)] == [DispatchStarted(requestId), DispatchFailed(requestId)];
  }

  // ---------------------------------------------------------------- answers

  /** What the gate writes about a policy it heard: the policy, unless a quarantine was logged, and its outcome. */
  ghost function GateWrites(w: World, id: string, policy: PolicyResult, outcome: IndexOutcome): seq<Payload>
    requires id in w.records
  {
    (if AlreadyQuarantined(w.records[id].events) then [] else [PolicyResultReceived(policy)]) + [IndexGateApplied(outcome)]
  }

  /** An answer that is taken for the first time is written as received, unless it was before; then as the gate heard
      it; and then as applied, with the gate's outcome. */
  lemma AnswerWrites(w: World, id: string, submission: PolicySubmission, env: Surroundings) returns (outcome: IndexOutcome)
    requires AllConverse(w) && id in w.records && ChainValid(w, id) && submission.policy.Valid()
    requires Talk(w.records[id].events).requests != [] && Talk(w.records[id].events).requests[0].requestId == submission.requestId
    ensures var received := Talk(w.records[id].events).received; var w' := AcceptResult(w, id, submission, env);
            && Writes(w, w', id, (if received == [] then [SubmissionReceived(submission)] else [])
                                 + GateWrites(w, id, submission.policy, outcome) + [SubmissionApplied(submission, outcome)])
            && Spares(w, w', id)
  {
    assert IsConversing(w, id);
    var d := Talk(w.records[id].events);
    DialogueReads(w, id, d.requests[0]);
    var heard: seq<Payload> := if d.received == [] then [SubmissionReceived(submission)] else [];
    var w1 := if d.received == [] then Log(w, id, SubmissionReceived(submission)) else w;
    ReceivingWrites(w, w1, id, submission, heard);
    var step := ApplyStep(w1, w1.records[id].prepared, submission.policy, false, env);
    outcome := step.outcome.value;
    RecordsExactly(w1, w1.records[id].prepared, submission.policy, false, env);
    assert Recorded(step.outcome) == [IndexGateApplied(outcome)];
    AppendsWrites(w1, step.world, id, GateWrites(w, id, submission.policy, outcome));
    LogWrites(step.world, id, SubmissionApplied(submission, outcome));
    WritesTwice(w, w1, step.world, id, heard, GateWrites(w, id, submission.policy, outcome));
    WritesTwice(w, step.world, AcceptResult(w, id, submission, env), id, heard + GateWrites(w, id, submission.policy, outcome),
                [SubmissionApplied(submission, outcome)]);
  }

  lemma ReceivingWrites(w: World, w1: World, id: string, submission: PolicySubmission, heard: seq<Payload>)
    requires id in w.records && ChainValid(w, id)
    requires (w1 == w && heard == []) || (w1 == Log(w, id, SubmissionReceived(submission)) && heard == [SubmissionReceived(submission)])
    ensures Writes(w, w1, id, heard) && Spares(w, w1, id) && ChainValid(w1, id)
    ensures w1.records[id].prepared == w.records[id].prepared
    ensures AlreadyQuarantined(w1.records[id].events) <==> AlreadyQuarantined(w.records[id].events)
  {
    if heard == [] {
      assert Payloads(w.records[id].events) + [] == Payloads(w.records[id].events);
    } else {
      LogWrites(w, id, SubmissionReceived(submission));
      Logged(w, id, SubmissionReceived(submission));
      var events, events' := w.records[id].events, w1.records[id].events;
      assert forall i | 0 <= i < |events| :: events'[i] == events'[..|events|][i];
    }
  }

  // ---------------------------------------------------------------- commands

  /** A hold that succeeds is written as the gate's hold, and as the completed command with that outcome. */
  lemma HoldWrites(w: World, id: string, command: OperatorCommand, token: string, env: Surroundings) returns (outcome: IndexOutcome)
    requires IsDueNow(w, id, command, token) && command.action == Hold && !env.completionFault
    requires w.records[id].prepared.analysisId == id && ChainValid(w, id)
    ensures var (w', result) := ExecuteStep(w, id, command, token, env);
            && Writes(w, w', id, [IndexGateApplied(outcome), CommandCompleted(command, Some(outcome), None)]) && Spares(w, w', id)
            && result.Ok? && result.value.outcome == Some(outcome) && outcome.action == HOLD
  {
    var step := HoldStep(w, w.records[id].prepared, "OPERATOR_HOLD", env);
    outcome := step.outcome.value;
    DueIsFresh(w, id, command);
    HoldUnfolds(w, id, command, token, env);
    GateHoldWrites(w, id, "OPERATOR_HOLD", env);
    CompletionWrites(w, step.world, id, command, outcome, [IndexGateApplied(outcome)], env);
  }

  /** A due hold or reanalysis takes the candidate out of the index, unless its removal fails, even where the command
      fails afterwards; and changes nothing else in the index. */
  lemma CommandTakesOut(w: World, id: string, command: OperatorCommand, token: string, env: Surroundings)
    requires IsDueNow(w, id, command, token) && command.action != Approve && w.records[id].prepared.analysisId == id
    ensures var (w', result), p := ExecuteStep(w, id, command, token, env), w.records[id].prepared;
            && w'.index == (if env.removeFault.Some? then w.index else Removed(w.index, p.documentId, p.candidate.sha256))
            && (result.Ok? ==> result.value.outcome.Some? && (result.value.outcome.value.indexed <==> env.removeFault.Some?))
  {
    DueIsFresh(w, id, command);
    match command.action {
      case Hold =>
        HoldUnfolds(w, id, command, token, env);
        HoldTakesOut(w, id, "OPERATOR_HOLD", env);
      case Reanalyze =>
        FreshReanalysis(w, id, command, token, env);
        HoldTakesOut(w, id, "OPERATOR_REANALYZE_HOLD", env);
    }
  }

  lemma HoldTakesOut(w: World, id: string, code: string, env: Surroundings)
    requires id in w.records
    ensures var p := w.records[id].prepared; var step := HoldStep(w, p, code, env);
            && step.world.index == (if env.removeFault.Some? then w.index else Removed(w.index, p.documentId, p.candidate.sha256))
            && (step.outcome.value.indexed <==> env.removeFault.Some?)
  {
  }

  lemma GateHoldWrites(w: World, id: string, code: string, env: Surroundings)
    requires id in w.records && w.records[id].prepared.analysisId == id && ChainValid(w, id)
    ensures var step := HoldStep(w, w.records[id].prepared, code, env);
            && Writes(w, step.world, id, [IndexGateApplied(step.outcome.value)]) && Spares(w, step.world, id)
            && step.outcome.value.action == HOLD
  {
    var step := HoldStep(w, w.records[id].prepared, code, env);
    LogWrites(RemoveCandidate(w, w.records[id].prepared, env), id, IndexGateApplied(step.outcome.value));
  }

  lemma CompletionWrites(w: World, w1: World, id: string, command: OperatorCommand, outcome: IndexOutcome, written: seq<Payload>,
                         env: Surroundings)
    requires Writes(w, w1, id, written) && Spares(w, w1, id) && !env.completionFault
    ensures var (w', result) := Finish(w1, id, command, outcome, None, env);
            && Writes(w, w', id, written + [CommandCompleted(command, Some(outcome), None)]) && Spares(w, w', id)
            && result.Ok? && result.value.outcome == Some(outcome)
  {
    LogWrites(w1, id, CommandCompleted(command, Some(outcome), None));
    WritesTwice(w, w1, Log(w1, id, CommandCompleted(command, Some(outcome), None)), id, written,
                [CommandCompleted(command, Some(outcome), None)]);
  }

  /** An approval that succeeds is written as the gate heard B's policy, and as the completed command. */
  lemma ApproveWrites(w: World, id: string, command: OperatorCommand, token: string, env: Surroundings) returns (outcome: IndexOutcome)
    requires IsDueNow(w, id, command, token) && command.action == Approve
    requires w.records[id].prepared.analysisId == id && ChainValid(w, id) && ExecuteStep(w, id, command, token, env).1.Ok?
    ensures Fold(w.records[id].events).policy.Some?
    ensures var (w', result) := ExecuteStep(w, id, command, token, env);
            var policy := Fold(w.records[id].events).policy.value;
            && (policy.Valid() ==>
                  && Writes(w, w', id, GateWrites(w, id, policy, outcome) + [CommandCompleted(command, Some(outcome), None)])
                  && Spares(w, w', id))
            && result.value.outcome == Some(outcome)
  {
    LogViews.PolicyIsLatest(w.records[id].events);
    DueIsFresh(w, id, command);
    var policy, p := Fold(w.records[id].events).policy.value, w.records[id].prepared;
    if policy.indexAction != INDEX { ApproveUnfolds(w, id, command, token, env); }
    FreshApproval(w, id, command, token, env);
    var step := ApplyStep(w, p, policy, true, env);
    outcome := step.outcome.value;
    if policy.Valid() {
      RecordsExactly(w, p, policy, true, env);
      assert Recorded(step.outcome) == [IndexGateApplied(outcome)];
      AppendsWrites(w, step.world, id, GateWrites(w, id, policy, outcome));
      CompletionWrites(w, step.world, id, command, outcome, GateWrites(w, id, policy, outcome), env);
    }
  }

  // ---------------------------------------------------------------- what is reported

  predicate BearsOutcome(payload: Payload) {
    payload.IndexGateApplied? || payload.SubmissionApplied?
  }

  /** This is the last event that bears an outcome. */
  ghost predicate BearsLast(events: seq<Event>, i: nat) {
    i < |events| && BearsOutcome(events[i].payload) && forall j | i < j < |events| :: !BearsOutcome(events[j].payload)
  }

  ghost predicate BearsNone(events: seq<Event>) {
    forall i | 0 <= i < |events| :: !BearsOutcome(events[i].payload)
  }

  lemma AdvanceBears(at: Progress, payload: Payload)
    ensures Advance(at, payload).outcome == if BearsOutcome(payload) then Some(payload.outcome) else at.outcome
  {
  }

  /** The outcome that is read from a log is that of the last event bearing one, and none without such an event. */
  lemma {:induction false} OutcomeIsLast(events: seq<Event>)
    ensures BearsNone(events) ==> Fold(events).outcome.None?
    ensures forall i: nat | BearsLast(events, i) :: Fold(events).outcome == Some(events[i].payload.outcome)
  {
    if events != [] {
      var n, before := |events| - 1, events[..|events| - 1];
      OutcomeIsLast(before);
      AdvanceBears(Fold(before), events[n].payload);
      assert Fold(events) == Advance(Fold(before), events[n].payload);
      if !BearsOutcome(events[n].payload) {
        forall i: nat | BearsLast(events, i) ensures BearsLast(before, i) && before[i] == events[i] {
        }
        assert BearsNone(events) ==> BearsNone(before);
      }
    }
  }

  /** A status names the analysis, tells truly whether its log verifies, reports the last policy, outcome and request,
      and lists exactly what is offered. */
  lemma StatusTells(w: World, id: string, action: OperatorAction)
    requires id in w.records && w.records[id].events != []
    ensures var status, record := StatusOf(w, id), w.records[id]; var p := record.prepared;
            && status.analysisId == p.analysisId && status.documentId == p.documentId && status.candidateSha256 == p.candidate.sha256
            && status.version == p.version && status.attempt == p.attempt && status.supersedes == p.supersedes
            && status.changedBy == p.changedBy && status.preparedAt == p.preparedAt
            && (status.auditChainValid <==>
                  forall i | 0 <= i < |record.events| :: AuditChain.Linked(w.config.hash, id, record.events, i))
            && status.latestPolicy == LatestAppliedPolicy(record.events)
            && (action in status.allowedCommands <==> IsOffered(status.state, status.latestPolicy, action))
            && (BearsNone(record.events) ==> status.latestOutcome.None?)
            && forall i: nat | BearsLast(record.events, i) :: status.latestOutcome == Some(record.events[i].payload.outcome)
  {
    OutcomeIsLast(w.records[id].events);
    LogViews.PolicyIsLatest(w.records[id].events);
    OffersExactly(StatusOf(w, id).state, StatusOf(w, id).latestPolicy, action);
  }
}
