/** Every index the gateway can reach is one whose searches answer as `Search` says. */
module SearchSafety {
  import opened Wrappers
  import opened Contracts
  import opened VersionedIndex
  import opened Gate
  import opened Operations
  import opened Runs
  import opened ApprovalSafety
  import opened Search

  /** A step whose candidate's digest is one: 64 lower-case hexadecimal digits. */
  predicate IsDigested(step: Step) {
    step.Prepare? || step.Store? ==> IsSha256(step.candidate.sha256)
  }

  predicate Digested(p: PreparedAnalysis) {
    IsSha256(p.candidate.sha256)
  }

  ghost predicate AllDigested(w: World) {
    forall id | id in w.records :: Digested(w.records[id].prepared)
  }

  ghost predicate Kept(w: World) {
    AllDigested(w) && WellKept(w.index, w.config.chunkSize)
  }

  // ---------------------------------------------------------------- the records

  /** What the step adds is digested. */
  ghost predicate AddsDigested(w: World, w': World) {
    forall id | id in w'.records && id !in w.records :: Digested(w'.records[id].prepared)
  }

  lemma GrowsDigested(w: World, w': World)
    requires AllDigested(w) && Grows(w, w') && AddsDigested(w, w')
    ensures AllDigested(w')
  {
    forall id | id in w'.records ensures Digested(w'.records[id].prepared) {
      if id in w.records { assert RecordGrows(w.records[id], w'.records[id]); }
    }
  }

  /** Each analysis was there before, is the candidate of this step, or repeats the candidate of an earlier one. */
  lemma NextAddsDigested(w: World, step: Step)
    requires AllDigested(w) && Possible(w, step) && IsDigested(step)
    ensures AddsDigested(w, Next(w, step))
  {
    match step
    case Submit(id, submission, token, env) => SubmitAddsNone(w, id, submission, token, env);
    case Dispatch(id, answer, token, env) =>
      if id in w.records && answer.Some? {
        var (w1, request) := EnsureRequest(w, id, token);
        SubmitAddsNone(Log(w1, id, DispatchStarted(request.requestId)), id, answer.value, token, env);
      }
    case Command(id, command, token, env) =>
      if id in w.records { CommandAddsRepeat(w, id, command, token, env); }
    case _ =>
  }

  // ---------------------------------------------------------------- the index

  /** The indexes one call of the gate can leave behind. */
  lemma CandidateKeepsWell(w: World, p: PreparedAnalysis, env: Surroundings)
    requires WellKept(w.index, w.config.chunkSize) && Digested(p)
    ensures var indexed := w.(index := Stored(w.index, p.candidate.documentId, CandidateVersion(w, p)));
            && WellKept(RemoveCandidate(w, p, env).index, w.config.chunkSize)
            && WellKept(indexed.index, w.config.chunkSize)
            && WellKept(RemoveCandidate(indexed, p, env).index, w.config.chunkSize)
  {
    var document, sha, size := p.candidate.documentId, p.candidate.sha256, w.config.chunkSize;
    StoringKeepsWell(w.index, document, sha, p.candidate.text, size, w.config.chunkOverlap);
    RemovingKeepsWell(w.index, p.documentId, sha, size);
    RemovingKeepsWell(Stored(w.index, document, CandidateVersion(w, p)), p.documentId, sha, size);
  }

  lemma AdmitKeeps(w: World, p: PreparedAnalysis, env: Surroundings)
    requires WellKept(w.index, w.config.chunkSize) && Digested(p) && p.analysisId in w.records
    ensures WellKept(AdmitStep(w, p, env).world.index, w.config.chunkSize)
  {
    CandidateKeepsWell(w, p, env);
  }

  lemma ApplyKeeps(w: World, p: PreparedAnalysis, policy: PolicyResult, indexIfAllowed: bool, env: Surroundings)
    requires WellKept(w.index, w.config.chunkSize) && Digested(p)
    ensures WellKept(ApplyStep(w, p, policy, indexIfAllowed, env).world.index, w.config.chunkSize)
  {
    CandidateKeepsWell(w, p, env);
    if IsAdmitted(w, p, policy, indexIfAllowed, env) {
      AdmitKeeps(Log(w, p.analysisId, PolicyResultReceived(policy)), p, env);
    } else {
      NotAdmittedLeaves(w, p, policy, indexIfAllowed, env);
    }
  }

  lemma AcceptKeeps(w: World, id: string, submission: PolicySubmission, env: Surroundings)
    requires Kept(w) && id in w.records
    ensures WellKept(AcceptResult(w, id, submission, env).index, w.config.chunkSize)
  {
    var w1 := if ReceivedSubmission(w.records[id].events, submission.requestId).None?
              then Log(w, id, SubmissionReceived(submission)) else w;
    ApplyKeeps(w1, w.records[id].prepared, submission.policy, false, env);
  }

  lemma SubmitKeeps(w: World, id: string, submission: PolicySubmission, token: string, env: Surroundings)
    requires Kept(w)
    ensures WellKept(SubmitStep(w, id, submission, token, env).0.index, w.config.chunkSize)
  {
    if id in w.records {
      AcceptKeeps(EnsureRequest(w, id, token).0, id, submission, env);
    }
  }

  lemma HoldKeeps(w: World, p: PreparedAnalysis, code: string, env: Surroundings)
    requires WellKept(w.index, w.config.chunkSize)
    ensures WellKept(HoldStep(w, p, code, env).world.index, w.config.chunkSize)
  {
    RemovingKeepsWell(w.index, p.documentId, p.candidate.sha256, w.config.chunkSize);
  }

  lemma ExecuteKeeps(w: World, id: string, command: OperatorCommand, token: string, env: Surroundings)
    requires Kept(w) && id in w.records && "anl_" + token !in w.records
    ensures WellKept(ExecuteStep(w, id, command, token, env).0.index, w.config.chunkSize)
  {
    var p, policy := w.records[id].prepared, LatestAppliedPolicy(w.records[id].events);
    if command.action == Approve {
      if policy.Some? { ApplyKeeps(w, p, policy.value, true, env); }
    } else {
      HoldKeeps(w, p, if command.action == Hold then "OPERATOR_HOLD" else "OPERATOR_REANALYZE_HOLD", env);
    }
  }

  lemma NextKeepsWell(w: World, step: Step)
    requires Kept(w) && Possible(w, step)
    ensures WellKept(Next(w, step).index, w.config.chunkSize)
  {
    match step
    case Submit(id, submission, token, env) => SubmitKeeps(w, id, submission, token, env);
    case Dispatch(id, answer, token, env) =>
      if id in w.records && answer.Some? {
        var (w1, request) := EnsureRequest(w, id, token);
        SubmitKeeps(Log(w1, id, DispatchStarted(request.requestId)), id, answer.value, token, env);
      }
    case Command(id, command, token, env) =>
      if id in w.records { ExecuteKeeps(w, id, command, token, env); }
    case _ =>
  }

  lemma NextKeeps(w: World, step: Step)
    requires Kept(w) && Possible(w, step) && IsDigested(step)
    ensures Kept(Next(w, step))
  {
    NextGrows(w, step);
    NextAddsDigested(w, step);
    GrowsDigested(w, Next(w, step));
    NextKeepsWell(w, step);
  }

  lemma {:induction false} RunsAreKept(ws: seq<World>, steps: seq<Step>, n: nat)
    requires IsRun(ws, steps) && n < |ws| && forall i | 0 <= i < n :: IsDigested(steps[i])
    ensures Kept(ws[n])
  {
    if n > 0 {
      RunsAreKept(ws, steps, n - 1);
      TakesStep(ws, steps, n - 1);
      NextKeeps(ws[n - 1], steps[n - 1]);
    } else {
      forall document ensures WellKeptVersions(VersionsOf(ws[0].index, document), ws[0].config.chunkSize) {
      }
    }
  }

  /** Whatever the gateway did before, and whatever its documents are called: a search within the API's bounds
      is answered, and the answer is accepted by its validators exactly if no row that an unscoped search
      shows belongs to a document named outside them. */
  lemma ReachableResponsesAreValidExactly(ws: seq<World>, steps: seq<Step>, n: nat, rows: seq<ChunkRow>, query: string,
                                          scoring: Scoring, limit: int, scope: Option<string>)
    requires IsRun(ws, steps) && n < |ws| && forall i | 0 <= i < n :: IsDigested(steps[i])
    requires Enumerates(rows, ws[n].index, scope) && ws[n].config.chunkSize <= 16000
    requires 1 <= |query| <= 2000 && 0 < limit <= 50 && (scope.Some? ==> IsDocumentId(scope.value))
    ensures var response := Respond(ws[n].index, rows, query, scoring, limit, scope);
            response.Some? && (ValidResponse(response.value) <==> Answers(rows, query, scoring, limit, scope))
  {
    RunsAreKept(ws, steps, n);
    ResponsesAreValidExactly(ws[n].index, rows, query, scoring, limit, scope, ws[n].config.chunkSize);
  }
}
