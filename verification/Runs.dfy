/** Runs of the gateway: any interleaving of preparing, submitting, dispatching and commanding, whole or in
    the parts that hold a lock, over any number of documents and analyses. */
module Runs {
  import opened Wrappers
  import opened Contracts
  import opened AuditChain
  import opened VersionedIndex
  import opened Gate
  import opened Operations
  import SqliteIndexer

  datatype Step =
    | Prepare(baseline: Snapshot, candidate: Snapshot, changedBy: string, version: nat, token: string)
    | Submit(id: string, submission: PolicySubmission, token: string, env: Surroundings)
    | Dispatch(id: string, answer: Option<PolicySubmission>, token: string, env: Surroundings)
    | Command(id: string, command: OperatorCommand, token: string, env: Surroundings)
    // the parts of a preparation and of a dispatch: storing what was put together before, starting, failing,
    // and reading what is to be put together
    | Store(baseline: Snapshot, candidate: Snapshot, changedBy: string, expected: Option<string>, version: nat, token: string)
    | Start(id: string, token: string)
    | Fail(id: string, requestId: string)
    | Look

  /** The analysis that a `Store` step stores. */
  function Put(step: Step, now: nat): PreparedAnalysis
    requires step.Store?
  {
    PreparedAnalysis(
      "anl_" + step.token, step.candidate.documentId, step.baseline, step.candidate,
      DiffReport(step.baseline.sha256, step.candidate.sha256), step.expected, step.version, step.changedBy, now, 1, None)
  }

  function StoreStep(w: World, p: PreparedAnalysis, token: string): World
    requires p.analysisId !in w.records
  {
    EnsureRequest(RecordPrepared(w, p), p.analysisId, token).0
  }

  function StartStep(w: World, id: string, token: string): World {
    if id !in w.records then w
    else
      var (w1, request) := EnsureRequest(w, id, token);
      Log(w1, id, DispatchStarted(request.requestId))
  }

  /** New identifiers are new, one extraction yields both snapshots, versions are allocated by the
      store, and every policy has passed its validator. */
  ghost predicate Possible(w: World, step: Step) {
    match step
    case Prepare(baseline, candidate, _, version, token) =>
      && "anl_" + token !in w.records && baseline.documentId == candidate.documentId
      && IsNextVersion(w, candidate.documentId, version)
    case Submit(_, submission, _, _) => submission.policy.Valid()
    case Dispatch(_, answer, _, _) => answer.Some? ==> answer.value.policy.Valid()
    case Command(_, _, token, _) => "anl_" + token !in w.records
    case Store(baseline, candidate, _, expected, _, token) =>
      && "anl_" + token !in w.records && baseline.documentId == candidate.documentId
      && (expected.Some? ==> expected.value == baseline.sha256)
    case _ => true
  }

  ghost function Next(w: World, step: Step): World
    requires Possible(w, step)
  {
    match step
    case Prepare(baseline, candidate, changedBy, version, token) =>
      PrepareStep(w, baseline, candidate, changedBy, version, token).0
    case Submit(id, submission, token, env) => SubmitStep(w, id, submission, token, env).0
    case Dispatch(id, answer, token, env) => DispatchStep(w, id, answer, token, env).0
    case Command(id, command, token, env) => ExecuteStep(w, id, command, token, env).0
    case Store(_, _, _, _, _, token) => StoreStep(w, Put(step, w.clock), token)
    case Start(id, token) => StartStep(w, id, token)
    case Fail(id, requestId) => LogIfKnown(w, id, DispatchFailed(requestId))
    case Look => w
  }

  predicate Initial(w: World) {
    w.records == map[] && w.index == map[]
  }

  ghost predicate IsRun(ws: seq<World>, steps: seq<Step>) {
    && |ws| == |steps| + 1 && Initial(ws[0])
    && forall i | 0 <= i < |steps| :: Possible(ws[i], steps[i]) && ws[i + 1] == Next(ws[i], steps[i])
  }

  lemma TakesStep(ws: seq<World>, steps: seq<Step>, n: nat)
    requires IsRun(ws, steps) && n < |steps|
    ensures Possible(ws[n], steps[n]) && ws[n + 1] == Next(ws[n], steps[n])
  {
  }

  // ---------------------------------------------------------------- logs only grow

  ghost predicate RecordGrows(r: Record, r': Record) {
    r'.prepared == r.prepared && |r.events| <= |r'.events| && r'.events[..|r.events|] == r.events
  }

  /** No analysis is forgotten or changed, every log keeps what it holds, and no chain breaks. */
  ghost predicate Grows(w: World, w': World) {
    && w'.config == w.config
    && (forall id | id in w.records :: id in w'.records && RecordGrows(w.records[id], w'.records[id]))
    && ChainsKept(w, w') && TimesKept(w, w')
  }

  /** What was valid stays valid, and what is new is valid. */
  ghost predicate ChainsKept(w: World, w': World) {
    forall id | id in w'.records && (id in w.records ==> ChainValid(w, id)) :: ChainValid(w', id)
  }

  /** The events of the log stand in the order of their times, all of them past. */
  ghost predicate IsTimed(w: World, id: string)
    requires id in w.records
  {
    var events := w.records[id].events;
    && (forall i, j | 0 <= i < j < |events| :: events[i].createdAt < events[j].createdAt)
    && (forall i | 0 <= i < |events| :: events[i].createdAt < w.clock)
  }

  ghost predicate AllTimed(w: World) {
    forall id | id in w.records :: IsTimed(w, id)
  }

  /** Time does not run back, and the logs stay in its order. */
  ghost predicate TimesKept(w: World, w': World) {
    w.clock <= w'.clock &&
    forall id {:trigger IsTimed(w', id)} | id in w'.records && (id in w.records ==> IsTimed(w, id)) :: IsTimed(w', id)
  }

  /** What the gate itself records. */
  predicate IsGateEvent(payload: Payload) {
    payload.PolicyResultReceived? || payload.PolicyResultRejected? || payload.IndexGateApplied?
  }

  /** No command was completed in the log, be it an old one or a new one; with `gateOnly` nothing was
      recorded but by the gate. */
  ghost predicate AddsQuietly(w: World, w': World, id: string, gateOnly: bool)
    requires id in w'.records
  {
    forall i | (if id in w.records then |w.records[id].events| else 0) <= i < |w'.records[id].events| ::
      var payload := w'.records[id].events[i].payload;
      !payload.CommandCompleted? && (gateOnly ==> IsGateEvent(payload))
  }

  /** The logs grew without any command being completed. */
  ghost predicate GrowsQuietly(w: World, w': World, gateOnly: bool) {
    Grows(w, w') && forall id | id in w'.records :: AddsQuietly(w, w', id, gateOnly)
  }

  lemma GateIsQuiet(w: World, w': World)
    requires GrowsQuietly(w, w', true)
    ensures GrowsQuietly(w, w', false)
  {
    forall id | id in w'.records ensures AddsQuietly(w, w', id, false) {
      assert AddsQuietly(w, w', id, true);
    }
  }

  /** What appending one event to a log does to everything read from it. */
  lemma Logged(w: World, id: string, payload: Payload)
    requires id in w.records
    ensures var w', events, events' := Log(w, id, payload), w.records[id].events, Log(w, id, payload).records[id].events;
            && Grows(w, w') && w'.records.Keys == w.records.Keys && w'.index == w.index
            && (forall other | other in w.records && other != id :: w'.records[other] == w.records[other])
            && w'.records[id].prepared == w.records[id].prepared
            && |events'| == |events| + 1 && events'[..|events|] == events && events'[|events|].payload == payload
            && (ChainValid(w, id) ==> ChainValid(w', id))
            && Fold(events') == Advance(Fold(events), payload)
            && LatestRequest(events') == (if payload.AnalysisRequested? then Some(payload.request) else LatestRequest(events))
            && LatestAppliedPolicy(events')
               == (if payload.SubmissionApplied? then Some(payload.submission.policy) else LatestAppliedPolicy(events))
  {
    var events, events' := w.records[id].events, Log(w, id, payload).records[id].events;
    assert events'[..|events|] == events;
    if ChainValid(w, id) {
      AppendVerifies(w.config.hash, id, events, payload, w.clock);
    }
  }

  lemma LoggedGrows(w: World, id: string, payload: Payload)
    requires id in w.records
    ensures Grows(w, Log(w, id, payload))
    ensures !payload.CommandCompleted? ==> GrowsQuietly(w, Log(w, id, payload), false)
    ensures IsGateEvent(payload) ==> GrowsQuietly(w, Log(w, id, payload), true)
  {
    Logged(w, id, payload);
    var w' := Log(w, id, payload);
    forall other | other in w'.records
      ensures !payload.CommandCompleted? ==> AddsQuietly(w, w', other, false)
      ensures IsGateEvent(payload) ==> AddsQuietly(w, w', other, true)
    {
      if other != id { assert w'.records[other] == w.records[other]; }
    }
  }

  lemma GrowsTransitive(a: World, b: World, c: World)
    requires Grows(a, b) && Grows(b, c)
    ensures Grows(a, c)
  {
    forall id | id in a.records ensures id in c.records && RecordGrows(a.records[id], c.records[id]) {
      assert RecordGrows(a.records[id], b.records[id]) && RecordGrows(b.records[id], c.records[id]);
      assert c.records[id].events[..|b.records[id].events|][..|a.records[id].events|]
          == c.records[id].events[..|a.records[id].events|];
    }
    forall id | id in c.records && (id in a.records ==> ChainValid(a, id)) ensures ChainValid(c, id) {
      if id in b.records { assert ChainValid(b, id); }
    }
    forall id | id in c.records && (id in a.records ==> IsTimed(a, id)) ensures IsTimed(c, id) {
      if id in b.records { assert IsTimed(b, id); }
    }
  }

  lemma QuietTransitive(a: World, b: World, c: World, gateOnly: bool)
    requires GrowsQuietly(a, b, gateOnly) && GrowsQuietly(b, c, gateOnly)
    ensures GrowsQuietly(a, c, gateOnly)
  {
    GrowsTransitive(a, b, c);
    forall id | id in c.records ensures AddsQuietly(a, c, id, gateOnly) {
      QuietRecord(a, b, c, id, gateOnly);
    }
  }

  lemma QuietRecord(a: World, b: World, c: World, id: string, gateOnly: bool)
    requires GrowsQuietly(a, b, gateOnly) && GrowsQuietly(b, c, gateOnly) && id in c.records
    ensures AddsQuietly(a, c, id, gateOnly)
  {
    assert AddsQuietly(b, c, id, gateOnly);
    if id in b.records {
      assert AddsQuietly(a, b, id, gateOnly) && RecordGrows(b.records[id], c.records[id]);
      var events, events' := b.records[id].events, c.records[id].events;
      forall i | (if id in a.records then |a.records[id].events| else 0) <= i < |events'| 
        ensures !events'[i].payload.CommandCompleted? && (gateOnly ==> IsGateEvent(events'[i].payload))
      {
        if i < |events| { assert events'[i] == events'[..|events|][i]; }
      }
    }
  }

  lemma DenyGrows(w: World, p: PreparedAnalysis, reason: Reason, record: bool, remove: bool, env: Surroundings)
    ensures GrowsQuietly(w, Deny(w, p, reason, record, remove, env).world, true)
  {
    var removed := if remove then RemoveCandidate(w, p, env) else w;
    var outcome := RefusalOutcome(p, QUARANTINE, reason, if remove then env.removeFault else None);
    if p.analysisId in w.records {
      LoggedGrows(removed, p.analysisId, IndexGateApplied(outcome));
    }
    SameRecordsGrow(w, removed, Deny(w, p, reason, record, remove, env).world, true);
  }

  lemma HoldGrows(w: World, p: PreparedAnalysis, code: string, env: Surroundings)
    ensures GrowsQuietly(w, HoldStep(w, p, code, env).world, true)
  {
    DenyGrows(w, p, Because("ANALYSIS_NOT_AUDITED"), false, true, env);
    DenyGrows(w, p, Because("PREPARED_ANALYSIS_MISMATCH"), true, true, env);
    DenyGrows(w, p, Because("AUDIT_CHAIN_INVALID"), false, true, env);
    if p.analysisId in w.records {
      NotIndexedGrows(w, p, Because(code), env);
    }
  }

  lemma NotIndexedGrows(w: World, p: PreparedAnalysis, reason: Reason, env: Surroundings)
    requires p.analysisId in w.records
    ensures GrowsQuietly(w, NotIndexed(w, p, reason, env).world, true)
  {
    LoggedGrows(RemoveCandidate(w, p, env), p.analysisId, IndexGateApplied(RefusalOutcome(p, HOLD, reason, env.removeFault)));
  }

  lemma AdmitGrows(w: World, p: PreparedAnalysis, env: Surroundings)
    requires p.analysisId in w.records
    ensures GrowsQuietly(w, AdmitStep(w, p, env).world, true)
  {
    var version := CandidateVersion(w, p);
    var indexed := w.(index := Stored(w.index, p.candidate.documentId, version));
    var result := SqliteIndexer.IndexResult(
      p.candidate.documentId, p.candidate.sha256, version.chunks, SqliteIndexer.Expect(p.expectedCurrent),
      CurrentOf(w.index, p.candidate.documentId), env.writeFault);
    match result {
      case Err(StaleBaseline) => DenyGrows(w, p, Because("STALE_BASELINE_VERSION"), true, false, env);
      case Err(error) => DenyGrows(w, p, Reason("INDEXER_ERROR", {ErrorName(error)}, None), true, true, env);
      case Ok(own) =>
        var receipt := if env.receipt.Some? then env.receipt.value else own;
        IndexedGrows(w, indexed, p, IndexedOutcome(p, receipt.chunkCount), env);
    }
  }

  lemma IndexedGrows(w: World, indexed: World, p: PreparedAnalysis, outcome: IndexOutcome, env: Surroundings)
    requires p.analysisId in w.records && indexed.config == w.config && indexed.records == w.records && indexed.clock == w.clock
    ensures GrowsQuietly(w, Deny(indexed, p, Because("INVALID_INDEX_RECEIPT"), true, true, env).world, true)
    ensures GrowsQuietly(w, Log(indexed, p.analysisId, IndexGateApplied(outcome)), true)
    ensures GrowsQuietly(w, RemoveCandidate(indexed, p, env), true)
  {
    DenyGrows(indexed, p, Because("INVALID_INDEX_RECEIPT"), true, true, env);
    LoggedGrows(indexed, p.analysisId, IndexGateApplied(outcome));
    SameRecordsGrow(w, indexed, Deny(indexed, p, Because("INVALID_INDEX_RECEIPT"), true, true, env).world, true);
    SameRecordsGrow(w, indexed, Log(indexed, p.analysisId, IndexGateApplied(outcome)), true);
    SameRecordsGrow(w, indexed, RemoveCandidate(indexed, p, env), true);
  }

  /** The index plays no part in growing. */
  lemma SameRecordsGrow(w: World, w1: World, w2: World, gateOnly: bool)
    requires w1.config == w.config && w1.records == w.records && w1.clock == w.clock
    requires GrowsQuietly(w1, w2, gateOnly) || (w2.config == w1.config && w2.records == w1.records && w2.clock == w1.clock)
    ensures GrowsQuietly(w, w2, gateOnly)
  {
    if GrowsQuietly(w1, w2, gateOnly) {
      forall id | id in w2.records && (id in w.records ==> ChainValid(w, id)) ensures ChainValid(w2, id) {
        assert id in w1.records ==> ChainValid(w1, id);
      }
      forall id | id in w2.records && (id in w.records ==> IsTimed(w, id)) ensures IsTimed(w2, id) {
        assert id in w1.records ==> IsTimed(w1, id);
      }
      forall id | id in w2.records ensures AddsQuietly(w, w2, id, gateOnly) {
        assert AddsQuietly(w1, w2, id, gateOnly);
      }
    }
  }

  lemma ApplyGrows(w: World, p: PreparedAnalysis, policy: PolicyResult, indexIfAllowed: bool, env: Surroundings)
    ensures GrowsQuietly(w, ApplyStep(w, p, policy, indexIfAllowed, env).world, true)
  {
    var id := p.analysisId;
    if !policy.Valid() {
      var w1 := LogIfKnown(w, id, PolicyResultRejected);
      if id in w.records { LoggedGrows(w, id, PolicyResultRejected); }
      DenyGrows(w1, p, Because("INVALID_POLICY_RESULT"), true, true, env);
      QuietTransitive(w, w1, ApplyStep(w, p, policy, indexIfAllowed, env).world, true);
    } else if id !in w.records {
      DenyGrows(w, p, Because("ANALYSIS_NOT_AUDITED"), false, true, env);
    } else if !ChainValid(w, id) {
      DenyGrows(w, p, Because("AUDIT_CHAIN_INVALID"), false, true, env);
    } else if AlreadyQuarantined(w.records[id].events) {
      DenyGrows(w, p, Because("ANALYSIS_ALREADY_QUARANTINED"), true, true, env);
    } else {
      var w1 := Log(w, id, PolicyResultReceived(policy));
      LoggedGrows(w, id, PolicyResultReceived(policy));
      var verdict := Judge(w.records[id].prepared, p, policy, indexIfAllowed, env.blob);
      SettleGrows(w1, p, verdict, env);
      QuietTransitive(w, w1, SettleStep(w1, p, verdict, env).world, true);
    }
  }

  lemma SettleGrows(w: World, p: PreparedAnalysis, verdict: Verdict, env: Surroundings)
    requires p.analysisId in w.records
    ensures GrowsQuietly(w, SettleStep(w, p, verdict, env).world, true)
  {
    match verdict {
      case Refuse(reason) => DenyGrows(w, p, reason, true, true, env);
      case KeepOut(reason) => NotIndexedGrows(w, p, reason, env);
      case Admit => AdmitGrows(w, p, env);
    }
  }

  lemma EnsureGrows(w: World, id: string, token: string)
    requires id in w.records
    ensures GrowsQuietly(w, EnsureRequest(w, id, token).0, false)
  {
    LoggedGrows(w, id, AnalysisRequested(RequestFor(w.records[id].prepared, token)));
  }

  lemma AcceptGrows(w: World, id: string, submission: PolicySubmission, env: Surroundings)
    requires id in w.records
    ensures GrowsQuietly(w, AcceptResult(w, id, submission, env), false)
  {
    var p := w.records[id].prepared;
    var w1 := if ReceivedSubmission(w.records[id].events, submission.requestId).None?
              then Log(w, id, SubmissionReceived(submission)) else w;
    LoggedGrows(w, id, SubmissionReceived(submission));
    SameRecordsGrow(w, w, w, false);
    ApplyGrows(w1, p, submission.policy, false, env);
    GateIsQuiet(w1, ApplyStep(w1, p, submission.policy, false, env).world);
    AppliedGrows(w, w1, id, submission, ApplyStep(w1, p, submission.policy, false, env));
  }

  lemma AppliedGrows(w: World, w1: World, id: string, submission: PolicySubmission, step: GateStep)
    requires GrowsQuietly(w, w1, false) && GrowsQuietly(w1, step.world, false) && id in step.world.records && step.outcome.Some?
    ensures GrowsQuietly(w, Log(step.world, id, SubmissionApplied(submission, step.outcome.value)), false)
  {
    QuietTransitive(w, w1, step.world, false);
    LoggedGrows(step.world, id, SubmissionApplied(submission, step.outcome.value));
    QuietTransitive(w, step.world, Log(step.world, id, SubmissionApplied(submission, step.outcome.value)), false);
  }

  lemma SubmitGrows(w: World, id: string, submission: PolicySubmission, token: string, env: Surroundings)
    ensures GrowsQuietly(w, SubmitStep(w, id, submission, token, env).0, false)
  {
    SameRecordsGrow(w, w, w, false);
    if id in w.records {
      var w1 := EnsureRequest(w, id, token).0;
      EnsureGrows(w, id, token);
      AcceptGrows(w1, id, submission, env);
      QuietTransitive(w, w1, AcceptResult(w1, id, submission, env), false);
      SubmitIsAccept(w, id, submission, token, env);
    }
  }

  lemma SubmitIsAccept(w: World, id: string, submission: PolicySubmission, token: string, env: Surroundings)
    requires id in w.records
    ensures var w1 := EnsureRequest(w, id, token).0;
            SubmitStep(w, id, submission, token, env).0 in {w, w1, AcceptResult(w1, id, submission, env)}
  {
  }

  lemma DispatchGrows(w: World, id: string, answer: Option<PolicySubmission>, token: string, env: Surroundings)
    ensures GrowsQuietly(w, DispatchStep(w, id, answer, token, env).0, false)
  {
    if id in w.records {
      var (w1, request) := EnsureRequest(w, id, token);
      EnsureGrows(w, id, token);
      LoggedGrows(w1, id, DispatchStarted(request.requestId));
      var w2 := Log(w1, id, DispatchStarted(request.requestId));
      QuietTransitive(w, w1, w2, false);
      LoggedGrows(w2, id, DispatchFailed(request.requestId));
      var w3 := DispatchStep(w, id, answer, token, env).0;
      if answer.Some? {
        SubmitGrows(w2, id, answer.value, token, env);
      }
      QuietTransitive(w, w2, w3, false);
    }
  }

  lemma RecordingGrows(w: World, p: PreparedAnalysis)
    requires p.analysisId !in w.records
    ensures GrowsQuietly(w, RecordPrepared(w, p), false)
  {
  }

  lemma ReanalysisGrows(w: World, p: PreparedAnalysis, token: string)
    requires "anl_" + token !in w.records
    ensures GrowsQuietly(w, ReanalysisStep(w, p, token), false)
  {
    var replacement := Replacement(w, p, token);
    var w1 := RecordPrepared(w, replacement);
    var w2 := LogIfKnown(w1, p.analysisId, AnalysisSuperseded(replacement.analysisId));
    if p.analysisId in w1.records {
      LoggedGrows(w1, p.analysisId, AnalysisSuperseded(replacement.analysisId));
    }
    RecordingGrows(w, replacement);
    assert GrowsQuietly(w1, w2, false);
    QuietTransitive(w, w1, w2, false);
    var w3 := EnsureRequest(w2, replacement.analysisId, token).0;
    EnsureGrows(w2, replacement.analysisId, token);
    QuietTransitive(w, w2, w3, false);
    assert w3 == ReanalysisStep(w, p, token);
  }

  /** The logs grew quietly, and `completed` was recorded last. */
  ghost predicate EndsAt(w: World, w1: World, w': World, id: string, completed: Payload) {
    GrowsQuietly(w, w1, false) && id in w1.records && completed.CommandCompleted? && w' == Log(w1, id, completed)
  }

  ghost predicate Ends(w: World, w': World, id: string, completed: Payload) {
    exists w1 :: EndsAt(w, w1, w', id, completed)
  }

  function Completion(command: OperatorCommand, result: OperatorCommandResult): Payload {
    CommandCompleted(command, result.outcome, result.replacementId)
  }

  /** A command that succeeds is recorded as completed, behind everything else; one that does not is not. */
  ghost predicate Executed(w: World, w': World, id: string, command: OperatorCommand,
                           result: Result<OperatorCommandResult, Failure>)
  {
    if result.Ok? then Ends(w, w', id, Completion(command, result.value)) else GrowsQuietly(w, w', false)
  }

  lemma FinishExecutes(w: World, w1: World, id: string, command: OperatorCommand, outcome: IndexOutcome,
                       replacement: Option<string>, env: Surroundings)
    requires GrowsQuietly(w, w1, false) && id in w1.records
    ensures var (w', result) := Finish(w1, id, command, outcome, replacement, env); Executed(w, w', id, command, result)
  {
    assert EndsAt(w, w1, Log(w1, id, CommandCompleted(command, Some(outcome), replacement)), id,
                  CommandCompleted(command, Some(outcome), replacement));
  }

  lemma ApproveExecutes(w: World, id: string, command: OperatorCommand, token: string, env: Surroundings)
    requires id in w.records && "anl_" + token !in w.records && IsFresh(w, id, command) && command.action == Approve
    ensures var (w', result) := ExecuteStep(w, id, command, token, env); Executed(w, w', id, command, result)
  {
    var p, policy := w.records[id].prepared, LatestAppliedPolicy(w.records[id].events);
    SameRecordsGrow(w, w, w, false);
    if policy.Some? && policy.value.decision == ALLOW && policy.value.indexAction == INDEX {
      var step := ApplyStep(w, p, policy.value, true, env);
      FreshApproval(w, id, command, token, env);
      ApplyGrows(w, p, policy.value, true, env);
      GateIsQuiet(w, step.world);
      if step.outcome.Some? { FinishExecutes(w, step.world, id, command, step.outcome.value, None, env); }
    }
  }

  lemma HoldExecutes(w: World, id: string, command: OperatorCommand, token: string, env: Surroundings)
    requires id in w.records && "anl_" + token !in w.records && IsFresh(w, id, command) && command.action == Hold
    ensures var (w', result) := ExecuteStep(w, id, command, token, env); Executed(w, w', id, command, result)
  {
    var step := HoldStep(w, w.records[id].prepared, "OPERATOR_HOLD", env);
    HoldGrows(w, w.records[id].prepared, "OPERATOR_HOLD", env);
    GateIsQuiet(w, step.world);
    FinishExecutes(w, step.world, id, command, step.outcome.value, None, env);
  }

  lemma ReanalyzeExecutes(w: World, id: string, command: OperatorCommand, token: string, env: Surroundings)
    requires id in w.records && "anl_" + token !in w.records && IsFresh(w, id, command) && command.action == Reanalyze
    ensures var (w', result) := ExecuteStep(w, id, command, token, env); Executed(w, w', id, command, result)
  {
    var p := w.records[id].prepared;
    var step := HoldStep(w, p, "OPERATOR_REANALYZE_HOLD", env);
    FreshReanalysis(w, id, command, token, env);
    HoldGrows(w, p, "OPERATOR_REANALYZE_HOLD", env);
    GateIsQuiet(w, step.world);
    if env.blob == Content(p.candidate.sha256) {
      var w1 := ReanalysisStep(step.world, p, token);
      ReanalysisGrows(step.world, p, token);
      QuietTransitive(w, step.world, w1, false);
      FinishExecutes(w, w1, id, command, step.outcome.value, Some("anl_" + token), env);
    }
  }

  lemma StaleCommandChangesNothing(w: World, id: string, command: OperatorCommand, token: string, env: Surroundings)
    requires "anl_" + token !in w.records && (id in w.records ==> !IsFresh(w, id, command))
    ensures ExecuteStep(w, id, command, token, env).0 == w
  {
  }

  /** What a command records, on any state and in any surroundings. */
  lemma CommandExecutes(w: World, id: string, command: OperatorCommand, token: string, env: Surroundings)
    requires "anl_" + token !in w.records
    ensures var (w', result) := ExecuteStep(w, id, command, token, env);
            if id in w.records && IsFresh(w, id, command) then Executed(w, w', id, command, result) else w' == w
  {
    if id in w.records && IsFresh(w, id, command) {
      match command.action
      case Approve => ApproveExecutes(w, id, command, token, env);
      case Hold => HoldExecutes(w, id, command, token, env);
      case Reanalyze => ReanalyzeExecutes(w, id, command, token, env);
    } else {
      StaleCommandChangesNothing(w, id, command, token, env);
    }
  }

  lemma EndsGrows(w: World, w': World, id: string, completed: Payload)
    requires Ends(w, w', id, completed)
    ensures Grows(w, w')
  {
    var w1 :| EndsAt(w, w1, w', id, completed);
    LoggedGrows(w1, id, completed);
    GrowsTransitive(w, w1, w');
  }

  lemma ExecuteGrows(w: World, id: string, command: OperatorCommand, token: string, env: Surroundings)
    requires "anl_" + token !in w.records
    ensures Grows(w, ExecuteStep(w, id, command, token, env).0)
  {
    var (w', result) := ExecuteStep(w, id, command, token, env);
    CommandExecutes(w, id, command, token, env);
    if id in w.records && IsFresh(w, id, command) {
      if result.Ok? { EndsGrows(w, w', id, Completion(command, result.value)); }
    }
  }

  lemma StoreGrows(w: World, p: PreparedAnalysis, token: string)
    requires p.analysisId !in w.records
    ensures GrowsQuietly(w, StoreStep(w, p, token), false)
  {
    RecordingGrows(w, p);
    EnsureGrows(RecordPrepared(w, p), p.analysisId, token);
    QuietTransitive(w, RecordPrepared(w, p), StoreStep(w, p, token), false);
  }

  lemma StartGrows(w: World, id: string, token: string)
    ensures GrowsQuietly(w, StartStep(w, id, token), false)
  {
    if id in w.records {
      var (w1, request) := EnsureRequest(w, id, token);
      EnsureGrows(w, id, token);
      LoggedGrows(w1, id, DispatchStarted(request.requestId));
      QuietTransitive(w, w1, StartStep(w, id, token), false);
    }
  }

  /** The gateway is append-only: no step loses an analysis or an event, and no log stops verifying. Only a
      command completes commands. */
  lemma NextGrows(w: World, step: Step)
    requires Possible(w, step)
    ensures Grows(w, Next(w, step))
    ensures !step.Command? ==> GrowsQuietly(w, Next(w, step), false)
  {
    match step
    case Prepare(baseline, candidate, changedBy, version, token) =>
      StoreGrows(w, NewAnalysis(w, baseline, candidate, changedBy, version, token), token);
    case Submit(id, submission, token, env) => SubmitGrows(w, id, submission, token, env);
    case Dispatch(id, answer, token, env) => DispatchGrows(w, id, answer, token, env);
    case Command(id, command, token, env) => ExecuteGrows(w, id, command, token, env);
    case Store(_, _, _, _, _, token) => StoreGrows(w, Put(step, w.clock), token);
    case Start(id, token) => StartGrows(w, id, token);
    case Fail(id, requestId) => if id in w.records { LoggedGrows(w, id, DispatchFailed(requestId)); }
    case Look =>
  }

  ghost predicate AllChainsValid(w: World) {
    forall id | id in w.records :: ChainValid(w, id)
  }

  /** Every log of every run verifies. */
  lemma {:induction false} RunsAreChained(ws: seq<World>, steps: seq<Step>, n: nat)
    requires IsRun(ws, steps) && n < |ws|
    ensures AllChainsValid(ws[n])
  {
    if n > 0 {
      RunsAreChained(ws, steps, n - 1);
      StaysChained(ws, steps, n - 1);
    }
  }

  /** In every state of every run the events of every log stand in the order of their times. */
  lemma {:induction false} RunsAreTimed(ws: seq<World>, steps: seq<Step>, n: nat)
    requires IsRun(ws, steps) && n < |ws|
    ensures AllTimed(ws[n])
  {
    if n > 0 {
      RunsAreTimed(ws, steps, n - 1);
      TakesStep(ws, steps, n - 1);
      NextGrows(ws[n - 1], steps[n - 1]);
    }
  }

  lemma StaysChained(ws: seq<World>, steps: seq<Step>, n: nat)
    requires IsRun(ws, steps) && n < |steps| && AllChainsValid(ws[n])
    ensures AllChainsValid(ws[n + 1])
  {
    TakesStep(ws, steps, n);
    NextGrows(ws[n], steps[n]);
  }

  // ---------------------------------------------------------------- which analyses a step adds

  lemma SubmitAddsNone(w: World, id: string, submission: PolicySubmission, token: string, env: Surroundings)
    ensures SubmitStep(w, id, submission, token, env).0.records.Keys == w.records.Keys
  {
  }

  /** `newId` is new, and repeats the candidate of `p`. */
  ghost predicate Repeats(w: World, newId: string, p: PreparedAnalysis)
    requires newId in w.records
  {
    var r := w.records[newId].prepared;
    r.analysisId == newId && r.candidate == p.candidate && r.documentId == p.documentId
  }

  lemma ReanalysisRepeats(w: World, p: PreparedAnalysis, token: string)
    requires "anl_" + token !in w.records
    ensures Repeats(ReanalysisStep(w, p, token), "anl_" + token, p)
  {
  }

  lemma CommandAddsRepeat(w: World, id: string, command: OperatorCommand, token: string, env: Surroundings)
    requires "anl_" + token !in w.records && id in w.records
    ensures var w', newId := ExecuteStep(w, id, command, token, env).0, "anl_" + token;
            && w'.records.Keys <= w.records.Keys + {newId}
            && (newId in w'.records ==> Repeats(w', newId, w.records[id].prepared))
  {
    if command.action == Reanalyze {
      var step := HoldStep(w, w.records[id].prepared, "OPERATOR_REANALYZE_HOLD", env);
      ReanalysisRepeats(step.world, w.records[id].prepared, token);
    }
  }
}
