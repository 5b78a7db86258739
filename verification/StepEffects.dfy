/** What a guarded step does to the analyses, in three kinds: it extends one log, adds an original
    analysis, or supersedes one analysis by another. */
module StepEffects {
  import opened Wrappers
  import opened Contracts
  import opened Gate
  import opened Operations
  import opened Runs
  import opened LogViews
  import opened AuthoritySafety

  ghost predicate Live(w: World, id: string)
    requires id in w.records
  {
    Fold(w.records[id].events).state != SUPERSEDED
  }

  /** At most the log of `id` grew; no analysis was superseded. */
  ghost predicate Extends(w: World, w': World, id: string) {
    && id in w.records && id in w'.records
    && Touched(w, w', id, ViewOf(w', id))
    && (Live(w', id) <==> Live(w, id))
  }

  /** `r` is the next attempt on the evidence of `p`. */
  predicate Continues(p: PreparedAnalysis, r: PreparedAnalysis) {
    && r.analysisId != p.analysisId && r.documentId == p.documentId && r.version == p.version
    && r.attempt == p.attempt + 1 && r.supersedes == Some(p.analysisId)
    && r.baseline == p.baseline && r.candidate == p.candidate && r.diff == p.diff
    && r.expectedCurrent == p.expectedCurrent && r.changedBy == p.changedBy
  }

  /** `id` was live and is superseded by the new analysis `newId`. */
  ghost predicate Supersedes(w: World, w': World, id: string, newId: string) {
    && id in w.records && newId !in w.records && w'.config == w.config
    && w'.records.Keys == w.records.Keys + {newId}
    && (forall other | other in w.records && other != id :: w'.records[other] == w.records[other])
    && w'.records[id].prepared == w.records[id].prepared
    && Live(w, id) && !Live(w', id) && Live(w', newId)
    && w'.records[newId].prepared.analysisId == newId
    && Continues(w.records[id].prepared, w'.records[newId].prepared)
  }

  // ---------------------------------------------------------------- submitting and dispatching

  lemma SupersededIsClosed(w: World, id: string, submission: PolicySubmission, token: string, env: Surroundings)
    requires id in w.records ==> !Live(w, id)
    ensures SubmitStep(w, id, submission, token, env).0 == w
  {
  }

  lemma AcceptExtends(w: World, id: string, submission: PolicySubmission, env: Surroundings)
    requires AllSound(w) && id in w.records && Live(w, id) && submission.policy.Valid() && env.removeFault.None?
    ensures Extends(w, AcceptResult(w, id, submission, env), id)
  {
    var outcome := AcceptTouches(w, id, submission, env);
    AppliedExtends(w, AcceptResult(w, id, submission, env), id, submission, outcome);
  }

  lemma AppliedExtends(w: World, w': World, id: string, submission: PolicySubmission, outcome: IndexOutcome)
    requires id in w.records && Live(w, id)
    requires Touched(w, w', id, ReadOne(Gated(ViewOf(w, id), outcome), SubmissionApplied(submission, outcome)))
    ensures Extends(w, w', id)
  {
  }

  lemma SubmitExtends(w: World, id: string, submission: PolicySubmission, token: string, env: Surroundings)
    requires AllSound(w) && submission.policy.Valid() && env.removeFault.None?
    ensures var w' := SubmitStep(w, id, submission, token, env).0; w' == w || Extends(w, w', id)
  {
    if id in w.records && Live(w, id) {
      assert Sound(w, id);
      assert EnsureRequest(w, id, token).0 == w;
      AcceptExtends(w, id, submission, env);
    } else {
      SupersededIsClosed(w, id, submission, token, env);
    }
  }

  lemma ExtendsTwice(w: World, w1: World, w2: World, id: string)
    requires Extends(w, w1, id) && (w2 == w1 || Extends(w1, w2, id))
    ensures Extends(w, w2, id)
  {
  }

  lemma LogExtends(w: World, id: string, payload: Payload)
    requires id in w.records && Live(w, id) && !payload.CommandCompleted? && !payload.AnalysisSuperseded?
    ensures Extends(w, Log(w, id, payload), id)
  {
    LogTouches(w, id, payload);
  }

  lemma DispatchExtends(w: World, id: string, answer: Option<PolicySubmission>, token: string, env: Surroundings)
    requires AllSound(w) && id in w.records && Live(w, id) && env.removeFault.None?
    requires answer.Some? ==> answer.value.policy.Valid()
    ensures Extends(w, DispatchStep(w, id, answer, token, env).0, id)
  {
    assert Sound(w, id);
    var request := ViewOf(w, id).request.value;
    assert EnsureRequest(w, id, token) == (w, request);
    var w1 := Log(w, id, DispatchStarted(request.requestId));
    LogExtends(w, id, DispatchStarted(request.requestId));
    StartKeepsSound(w, id, request.requestId);
    match answer {
      case None => LogExtends(w1, id, DispatchFailed(request.requestId));
      case Some(submission) => SubmitExtends(w1, id, submission, token, env);
    }
    ExtendsTwice(w, w1, DispatchStep(w, id, answer, token, env).0, id);
  }

  // ---------------------------------------------------------------- commands

  /** A fresh command supersedes its analysis if it adds another, else it extends the log. */
  ghost predicate CommandEffect(w: World, w': World, id: string, newId: string) {
    if newId in w'.records then Supersedes(w, w', id, newId) else Extends(w, w', id)
  }

  lemma CompletingExtends(w: World, w': World, id: string, command: OperatorCommand, outcome: IndexOutcome)
    requires id in w.records && Live(w, id) && command.action != Reanalyze
    requires Touched(w, w', id, Completing(Gated(ViewOf(w, id), outcome), command, outcome, None))
    ensures Extends(w, w', id)
  {
  }

  lemma GatedExtends(w: World, w': World, id: string, outcome: IndexOutcome)
    requires id in w.records && Live(w, id) && Touched(w, w', id, Gated(ViewOf(w, id), outcome))
    ensures Extends(w, w', id)
  {
  }

  lemma UnfinishedExtends(w: World, w': World, id: string)
    requires id in w.records && Live(w, id) && Unfinished(w, w', id)
    ensures Extends(w, w', id)
  {
    var outcome :| Touched(w, w', id, Gated(ViewOf(w, id), outcome));
    GatedExtends(w, w', id, outcome);
  }

  lemma FreshIsLive(w: World, id: string, command: OperatorCommand)
    requires id in w.records && IsFresh(w, id, command)
    ensures Live(w, id)
  {
    AllowedIsOpen(Fold(w.records[id].events), command.action);
  }

  lemma ApproveEffect(w: World, id: string, command: OperatorCommand, token: string, env: Surroundings)
    requires AllSound(w) && id in w.records && "anl_" + token !in w.records && env.removeFault.None?
    requires IsFresh(w, id, command) && command.action == Approve
    ensures Extends(w, ExecuteStep(w, id, command, token, env).0, id)
  {
    var (w', result) := ExecuteStep(w, id, command, token, env);
    FreshIsLive(w, id, command);
    ApproveTouches(w, id, command, token, env);
    if result.Ok? {
      CompletingExtends(w, w', id, command, result.value.outcome.value);
    } else if Unfinished(w, w', id) {
      UnfinishedExtends(w, w', id);
    }
  }

  lemma HoldEffect(w: World, id: string, command: OperatorCommand, token: string, env: Surroundings)
    requires AllSound(w) && id in w.records && "anl_" + token !in w.records && env.removeFault.None?
    requires IsFresh(w, id, command) && command.action == Hold
    ensures Extends(w, ExecuteStep(w, id, command, token, env).0, id)
  {
    var (w', result) := ExecuteStep(w, id, command, token, env);
    FreshIsLive(w, id, command);
    HoldCommandTouches(w, id, command, token, env);
    if result.Ok? {
      CompletingExtends(w, w', id, command, result.value.outcome.value);
    } else {
      UnfinishedExtends(w, w', id);
    }
  }

  lemma SupersededEffect(w: World, w': World, id: string, v: View, v': View, command: OperatorCommand, outcome: IndexOutcome,
                         replacement: PreparedAnalysis, token: string)
    requires id in w.records && Live(w, id) && command.action == Reanalyze
    requires Continues(w.records[id].prepared, replacement)
    requires ReadsReanalyzed(v, v', command, outcome, replacement.analysisId) && v' != Gated(v, outcome)
    requires Superseded(w, w', id, v', replacement, token)
    ensures Supersedes(w, w', id, replacement.analysisId)
  {
  }

  lemma ReplacedEffect(w: World, w': World, id: string, v': View, command: OperatorCommand, outcome: IndexOutcome,
                       replacement: PreparedAnalysis, token: string)
    requires id in w.records && Live(w, id) && command.action == Reanalyze && replacement.analysisId !in w.records
    requires Continues(w.records[id].prepared, replacement)
    requires ReadsReanalyzed(ViewOf(w, id), v', command, outcome, replacement.analysisId)
    requires if v' == Gated(ViewOf(w, id), outcome) then Touched(w, w', id, v') else Superseded(w, w', id, v', replacement, token)
    ensures CommandEffect(w, w', id, replacement.analysisId)
  {
    if v' == Gated(ViewOf(w, id), outcome) {
      GatedExtends(w, w', id, outcome);
    } else {
      SupersededEffect(w, w', id, ViewOf(w, id), v', command, outcome, replacement, token);
    }
  }

  lemma ReplacementContinuesIt(w: World, p: PreparedAnalysis, token: string)
    requires "anl_" + token != p.analysisId
    ensures Continues(p, Replacement(w, p, token))
  {
  }

  lemma ReanalyzeEffect(w: World, id: string, command: OperatorCommand, token: string, env: Surroundings)
    requires AllSound(w) && id in w.records && "anl_" + token !in w.records && env.removeFault.None?
    requires IsFresh(w, id, command) && command.action == Reanalyze
    ensures CommandEffect(w, ExecuteStep(w, id, command, token, env).0, id, "anl_" + token)
  {
    assert Sound(w, id);
    var w', p := ExecuteStep(w, id, command, token, env).0, w.records[id].prepared;
    var step := HoldStep(w, p, "OPERATOR_REANALYZE_HOLD", env);
    FreshIsLive(w, id, command);
    var v' := ReanalyzeReads(w, id, command, token, env);
    ReplacementContinuesIt(step.world, p, token);
    ReplacedEffect(w, w', id, v', command, step.outcome.value, Replacement(step.world, p, token), token);
  }

  lemma ExecuteEffect(w: World, id: string, command: OperatorCommand, token: string, env: Surroundings)
    requires AllSound(w) && "anl_" + token !in w.records && env.removeFault.None?
    ensures var w' := ExecuteStep(w, id, command, token, env).0; w' == w || CommandEffect(w, w', id, "anl_" + token)
  {
    if id in w.records && IsFresh(w, id, command) {
      match command.action
      case Approve => ApproveEffect(w, id, command, token, env);
      case Hold => HoldEffect(w, id, command, token, env);
      case Reanalyze => ReanalyzeEffect(w, id, command, token, env);
    } else {
      StaleCommandChangesNothing(w, id, command, token, env);
    }
  }

  // ---------------------------------------------------------------- every step

  /** The step adds an original analysis. */
  ghost predicate AddsOriginal(w: World, w': World, p: PreparedAnalysis) {
    && p.analysisId !in w.records && w'.config == w.config
    && w'.records.Keys == w.records.Keys + {p.analysisId}
    && (forall other | other in w.records :: w'.records[other] == w.records[other])
    && w'.records[p.analysisId].prepared == p && Live(w', p.analysisId)
    && p.supersedes.None? && p.attempt == 1
  }

  /** The analysis that preparing adds, and the one that storing adds. */
  ghost predicate IsAddedBy(w: World, step: Step, p: PreparedAnalysis) {
    match step
    case Prepare(baseline, candidate, changedBy, version, token) =>
      p == NewAnalysis(w, baseline, candidate, changedBy, version, token)
    case Store(_, _, _, _, _, _) => p == Put(step, w.clock)
    case _ => false
  }

  ghost predicate ExtendsSome(w: World, w': World) {
    exists id :: Extends(w, w', id)
  }

  ghost predicate AddsSome(w: World, w': World, step: Step) {
    exists p :: IsAddedBy(w, step, p) && AddsOriginal(w, w', p)
  }

  ghost predicate SupersedesSome(w: World, w': World) {
    exists id, newId :: Supersedes(w, w', id, newId)
  }

  ghost predicate HasEffect(w: World, w': World, step: Step) {
    w'.records == w.records || ExtendsSome(w, w') || AddsSome(w, w', step) || SupersedesSome(w, w')
  }

  lemma AddedIsOriginal(w: World, w': World, p: PreparedAnalysis, token: string)
    requires Added(w, w', p, token) && p.supersedes.None? && p.attempt == 1
    ensures AddsOriginal(w, w', p)
  {
  }

  lemma PrepareHasEffect(w: World, step: Step)
    requires step.Prepare? && Possible(w, step)
    ensures HasEffect(w, Next(w, step), step)
  {
    var p := NewAnalysis(w, step.baseline, step.candidate, step.changedBy, step.version, step.token);
    PreparingAdds(w, p, step.token);
    if Next(w, step) != w { AddedIsOriginal(w, Next(w, step), p, step.token); }
  }

  lemma StoreHasEffect(w: World, step: Step)
    requires step.Store? && Possible(w, step)
    ensures HasEffect(w, Next(w, step), step)
    ensures AddsOriginal(w, Next(w, step), Put(step, w.clock))
  {
    var p := Put(step, w.clock);
    PreparingAdds(w, p, step.token);
    AddedIsOriginal(w, Next(w, step), p, step.token);
  }

  lemma CommandHasEffect(w: World, step: Step)
    requires AllSound(w) && step.Command? && Possible(w, step) && step.env.removeFault.None?
    ensures HasEffect(w, Next(w, step), step)
  {
    ExecuteEffect(w, step.id, step.command, step.token, step.env);
    var w', newId := Next(w, step), "anl_" + step.token;
    assert w' == w || Extends(w, w', step.id) || Supersedes(w, w', step.id, newId);
  }

  lemma StartExtends(w: World, id: string, token: string)
    requires AllSound(w) && id in w.records
    ensures Extends(w, StartStep(w, id, token), id)
  {
    StartReads(w, id, token);
    assert ViewOf(StartStep(w, id, token), id) == ViewOf(w, id);
  }

  /** Whatever a guarded step does, it does one thing to the analyses. */
  lemma NextHasEffect(w: World, step: Step)
    requires AllSound(w) && Possible(w, step) && Guarded(w, step)
    ensures HasEffect(w, Next(w, step), step)
  {
    match step
    case Prepare(_, _, _, _, _) => PrepareHasEffect(w, step);
    case Submit(id, submission, token, env) => SubmitExtends(w, id, submission, token, env);
    case Dispatch(id, answer, token, env) => if id in w.records { DispatchExtends(w, id, answer, token, env); }
    case Command(_, _, _, _) => CommandHasEffect(w, step);
    case Store(_, _, _, _, _, _) => StoreHasEffect(w, step);
    case Start(id, token) => if id in w.records { StartExtends(w, id, token); }
    case Fail(id, requestId) => if id in w.records { LogExtends(w, id, DispatchFailed(requestId)); }
    case Look =>
  }
}
