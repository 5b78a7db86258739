/** What the workflow reads from a log, and how one call of the gate changes it. */
module LogViews {
  import opened Wrappers
  import opened Contracts
  import opened VersionedIndex
  import opened Gate
  import opened Operations
  import opened Runs
  import SqliteIndexer

  /** Everything later steps read from a log. */
  datatype View = View(at: Progress, request: Option<RiskRequest>, commands: seq<Payload>)

  function Commands(events: seq<Event>): seq<Payload> {
    if events == [] then []
    else
      var last := events[|events| - 1].payload;
      Commands(events[..|events| - 1]) + if last.CommandCompleted? then [last] else []
  }

  function Read(events: seq<Event>): View {
    View(Fold(events), LatestRequest(events), Commands(events))
  }

  function ReadOne(v: View, payload: Payload): View {
    View(Advance(v.at, payload),
         if payload.AnalysisRequested? then Some(payload.request) else v.request,
         v.commands + if payload.CommandCompleted? then [payload] else [])
  }

  /** From `w` to `w'` only the log of `id` changed, and it now reads as `v`. */
  ghost predicate Touched(w: World, w': World, id: string, v: View)
    requires id in w.records
  {
    && w'.config == w.config && w'.records.Keys == w.records.Keys
    && (forall other | other in w.records && other != id :: w'.records[other] == w.records[other])
    && w'.records[id].prepared == w.records[id].prepared
    && (ChainValid(w, id) ==> ChainValid(w', id))
    && Read(w'.records[id].events) == v
  }

  function ViewOf(w: World, id: string): View
    requires id in w.records
  {
    Read(w.records[id].events)
  }

  lemma LogTouches(w: World, id: string, payload: Payload)
    requires id in w.records
    ensures Touched(w, Log(w, id, payload), id, ReadOne(ViewOf(w, id), payload))
    ensures Log(w, id, payload).index == w.index
  {
    Logged(w, id, payload);
  }

  lemma TouchTwice(w: World, w1: World, w2: World, id: string, v1: View, v2: View)
    requires id in w.records && Touched(w, w1, id, v1) && Touched(w1, w2, id, v2)
    ensures Touched(w, w2, id, v2)
  {
  }

  lemma {:induction false} PolicyIsLatest(events: seq<Event>)
    ensures Fold(events).policy == LatestAppliedPolicy(events)
  {
    if events != [] {
      PolicyIsLatest(events[..|events| - 1]);
    }
  }

  /** The last of `commands` under a key. */
  function CompletedIn(commands: seq<Payload>, key: string): Option<Payload> {
    if commands == [] then None
    else
      var last := commands[|commands| - 1];
      if last.CommandCompleted? && last.command.idempotencyKey == key then Some(last)
      else CompletedIn(commands[..|commands| - 1], key)
  }

  lemma {:induction false} CompletedIsRead(events: seq<Event>, key: string)
    ensures CompletedCommand(events, key) == CompletedIn(Commands(events), key)
    ensures CompletedCommand(events, key).Some? ==> CompletedCommand(events, key).value in Commands(events)
  {
    if events != [] {
      var before, last := events[..|events| - 1], events[|events| - 1].payload;
      CompletedIsRead(before, key);
      if last.CommandCompleted? {
        assert Commands(events)[..|Commands(before)|] == Commands(before);
      } else {
        assert Commands(events) == Commands(before);
      }
    }
  }

  // ---------------------------------------------------------------- the gate on a stored analysis

  /** A gate outcome about this analysis that reports an indexing exactly if it is one. */
  ghost predicate Honest(outcome: IndexOutcome, p: PreparedAnalysis) {
    && outcome.analysisId == p.analysisId && outcome.documentId == p.documentId
    && outcome.candidateSha256 == p.candidate.sha256
    && (outcome.indexed <==> outcome.action == INDEX)
  }

  function Gated(v: View, outcome: IndexOutcome): View {
    ReadOne(v, IndexGateApplied(outcome))
  }

  lemma DenyTouches(w: World, p: PreparedAnalysis, reason: Reason, remove: bool, env: Surroundings)
    requires p.analysisId in w.records && env.removeFault.None?
    ensures var step := Deny(w, p, reason, true, remove, env);
            && Honest(step.outcome.value, p) && step.outcome.value.action == QUARANTINE
            && Touched(w, step.world, p.analysisId, Gated(ViewOf(w, p.analysisId), step.outcome.value))
  {
    var outcome := RefusalOutcome(p, QUARANTINE, reason, None);
    LogTouches(if remove then RemoveCandidate(w, p, env) else w, p.analysisId, IndexGateApplied(outcome));
  }

  lemma NotIndexedTouches(w: World, p: PreparedAnalysis, reason: Reason, env: Surroundings)
    requires p.analysisId in w.records && env.removeFault.None?
    ensures var step := NotIndexed(w, p, reason, env);
            && Honest(step.outcome.value, p) && step.outcome.value.action == HOLD
            && Touched(w, step.world, p.analysisId, Gated(ViewOf(w, p.analysisId), step.outcome.value))
  {
    LogTouches(RemoveCandidate(w, p, env), p.analysisId, IndexGateApplied(RefusalOutcome(p, HOLD, reason, None)));
  }

  lemma HoldTouches(w: World, id: string, code: string, env: Surroundings)
    requires id in w.records && w.records[id].prepared.analysisId == id && ChainValid(w, id) && env.removeFault.None?
    ensures var p := w.records[id].prepared; var step := HoldStep(w, p, code, env);
            && Honest(step.outcome.value, p) && step.outcome.value.action == HOLD
            && Touched(w, step.world, id, Gated(ViewOf(w, id), step.outcome.value))
  {
    NotIndexedTouches(w, w.records[id].prepared, Because(code), env);
  }

  lemma AdmitTouches(w: World, p: PreparedAnalysis, env: Surroundings)
    requires p.analysisId in w.records && env.removeFault.None?
    ensures var step := AdmitStep(w, p, env);
            match step.outcome
            case None => Touched(w, step.world, p.analysisId, ViewOf(w, p.analysisId))
            case Some(outcome) =>
              && Honest(outcome, p) && outcome.action != HOLD
              && Touched(w, step.world, p.analysisId, Gated(ViewOf(w, p.analysisId), outcome))
  {
    var version := CandidateVersion(w, p);
    var indexed := w.(index := Stored(w.index, p.candidate.documentId, version));
    var result := SqliteIndexer.IndexResult(
      p.candidate.documentId, p.candidate.sha256, version.chunks, SqliteIndexer.Expect(p.expectedCurrent),
      CurrentOf(w.index, p.candidate.documentId), env.writeFault);
    match result {
      case Err(StaleBaseline) => DenyTouches(w, p, Because("STALE_BASELINE_VERSION"), false, env);
      case Err(error) => DenyTouches(w, p, Reason("INDEXER_ERROR", {ErrorName(error)}, None), true, env);
      case Ok(own) =>
        var receipt := if env.receipt.Some? then env.receipt.value else own;
        DenyTouches(indexed, p, Because("INVALID_INDEX_RECEIPT"), true, env);
        LogTouches(indexed, p.analysisId, IndexGateApplied(IndexedOutcome(p, receipt.chunkCount)));
    }
  }

  /** One call of the gate on a stored analysis with a verifying log: the log records its honest
      outcome, which indexes only a bound ALLOW it was asked to index. */
  lemma ApplyTouches(w: World, id: string, policy: PolicyResult, indexIfAllowed: bool, env: Surroundings)
    requires id in w.records && w.records[id].prepared.analysisId == id && ChainValid(w, id)
    requires policy.Valid() && env.removeFault.None?
    ensures var p := w.records[id].prepared; var step := ApplyStep(w, p, policy, indexIfAllowed, env);
            match step.outcome
            case None => Touched(w, step.world, id, ViewOf(w, id))
            case Some(outcome) =>
              && Honest(outcome, p)
              && (outcome.action == INDEX ==> indexIfAllowed && policy.decision == ALLOW)
              && (indexIfAllowed && policy.decision == ALLOW ==> outcome.action != HOLD)
              && Touched(w, step.world, id, Gated(ViewOf(w, id), outcome))
  {
    var p := w.records[id].prepared;
    if AlreadyQuarantined(w.records[id].events) {
      DenyTouches(w, p, Because("ANALYSIS_ALREADY_QUARANTINED"), true, env);
    } else {
      var w1, verdict := Log(w, id, PolicyResultReceived(policy)), Judge(p, p, policy, indexIfAllowed, env.blob);
      LogTouches(w, id, PolicyResultReceived(policy));
      assert ViewOf(w1, id) == ViewOf(w, id);
      SettleTouches(w1, p, verdict, env);
      JudgeDecides(p, policy, indexIfAllowed, env.blob);
    }
  }

  /** Carrying out a verdict records an honest outcome of the kind the verdict calls for. */
  lemma SettleTouches(w: World, p: PreparedAnalysis, verdict: Verdict, env: Surroundings)
    requires p.analysisId in w.records && env.removeFault.None?
    ensures var step := SettleStep(w, p, verdict, env);
            match step.outcome
            case None => verdict.Admit? && Touched(w, step.world, p.analysisId, ViewOf(w, p.analysisId))
            case Some(outcome) =>
              && Honest(outcome, p)
              && (outcome.action == INDEX ==> verdict.Admit?)
              && (outcome.action == HOLD <==> verdict.KeepOut?)
              && Touched(w, step.world, p.analysisId, Gated(ViewOf(w, p.analysisId), outcome))
  {
    match verdict {
      case Refuse(reason) => DenyTouches(w, p, reason, true, env);
      case KeepOut(reason) => NotIndexedTouches(w, p, reason, env);
      case Admit => AdmitTouches(w, p, env);
    }
  }

  lemma JudgeDecides(p: PreparedAnalysis, policy: PolicyResult, indexIfAllowed: bool, blob: Blob)
    requires policy.Valid()
    ensures Judge(p, p, policy, indexIfAllowed, blob).Admit? ==> policy.decision == ALLOW
    ensures Judge(p, p, policy, indexIfAllowed, blob).KeepOut? ==> !(indexIfAllowed && policy.decision == ALLOW)
  {
  }
}
