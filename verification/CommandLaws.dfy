/** The operator's commands: which succeed, in terms of what the log says, and the state each leaves behind. */
module CommandLaws {
  import opened Wrappers
  import opened Contracts
  import opened VersionedIndex
  import opened Gate
  import opened GateLaws
  import opened GateVerdicts
  import opened Operations
  import opened Runs
  import opened LogViews
  import opened ApprovalSafety
  import opened LostUpdates
  import opened Conversations

  // ---------------------------------------------------------------- what is offered

  /** C may hold what is neither held, quarantined nor superseded; may approve what B allows while it waits or is
      held; and may have anything analysed again until it is superseded. */
  predicate IsOffered(state: WorkflowState, policy: Option<PolicyResult>, action: OperatorAction) {
    match action
    case Approve => state in {AWAITING_APPROVAL, ON_HOLD} && policy.Some? && policy.value.decision == ALLOW
    case Hold => state !in {SUPERSEDED, QUARANTINED, ON_HOLD}
    case Reanalyze => state != SUPERSEDED
  }

  function Rank(action: OperatorAction): nat {
    match action case Approve => 0 case Hold => 1 case Reanalyze => 2
  }

  /** Exactly what is offered is listed, once each, and in this order. */
  lemma OffersExactly(state: WorkflowState, policy: Option<PolicyResult>, action: OperatorAction)
    ensures action in AllowedCommands(state, policy) <==> IsOffered(state, policy, action)
    ensures var commands := AllowedCommands(state, policy);
            forall i, j | 0 <= i < j < |commands| :: Rank(commands[i]) < Rank(commands[j])
  {
    var commands := AllowedCommands(state, policy);
    if state != SUPERSEDED { assert commands[|commands| - 1] == Reanalyze; }
    if IsOffered(state, policy, Approve) && state != QUARANTINED { assert commands[0] == Approve; }
    if IsOffered(state, policy, Hold) { assert commands[|commands| - 2] == Hold; }
  }

  /** No command was completed under the key. */
  ghost predicate IsNewKey(events: seq<Event>, key: string) {
    forall i | 0 <= i < |events| :: events[i].payload.CommandCompleted? ==> events[i].payload.command.idempotencyKey != key
  }

  lemma {:induction false} NewKeyExactly(events: seq<Event>, key: string)
    ensures CompletedCommand(events, key).None? <==> IsNewKey(events, key)
  {
    if events != [] {
      var before := events[..|events| - 1];
      NewKeyExactly(before, key);
      assert forall i | 0 <= i < |before| :: events[i] == before[i];
      assert IsNewKey(events, key) ==> IsNewKey(before, key);
    }
  }

  /** A command that is not a repeat, names the candidate and is offered. */
  ghost predicate IsDue(w: World, id: string, command: OperatorCommand) {
    && id in w.records && IsNewKey(w.records[id].events, command.idempotencyKey)
    && command.expectedCandidateSha256 == w.records[id].prepared.candidate.sha256
    && IsOffered(Fold(w.records[id].events).state, Fold(w.records[id].events).policy, command.action)
  }

  lemma DueIsFresh(w: World, id: string, command: OperatorCommand)
    requires id in w.records
    ensures IsFresh(w, id, command) <==> IsDue(w, id, command)
  {
    NewKeyExactly(w.records[id].events, command.idempotencyKey);
    OffersExactly(Fold(w.records[id].events).state, Fold(w.records[id].events).policy, command.action);
  }

  ghost predicate IsDueNow(w: World, id: string, command: OperatorCommand, token: string) {
    IsDue(w, id, command) && "anl_" + token !in w.records
  }

  /** How the analysis stands now. */
  ghost predicate StandsAt(w: World, id: string, state: WorkflowState) {
    id in w.records && Fold(w.records[id].events).state == state
  }

  // ---------------------------------------------------------------- holding

  lemma HoldUnfolds(w: World, id: string, command: OperatorCommand, token: string, env: Surroundings)
    requires id in w.records && "anl_" + token !in w.records && IsFresh(w, id, command) && command.action == Hold
    ensures var step := HoldStep(w, w.records[id].prepared, "OPERATOR_HOLD", env);
            ExecuteStep(w, id, command, token, env) == Finish(step.world, id, command, step.outcome.value, None, env)
  {
  }

  /** A due hold succeeds unless its own recording fails, and leaves the analysis on hold; what it answers is the
      hold that the gate recorded. */
  lemma HoldSucceeds(w: World, id: string, command: OperatorCommand, token: string, env: Surroundings)
    requires IsDueNow(w, id, command, token) && command.action == Hold
    requires w.records[id].prepared.analysisId == id && ChainValid(w, id)
    ensures var (w', result) := ExecuteStep(w, id, command, token, env);
            && (result.Ok? <==> !env.completionFault)
            && (result.Ok? ==>
                  && StandsAt(w', id, ON_HOLD) && result.value.outcome.Some? && result.value.outcome.value.action == HOLD
                  && result.value.replacementId.None? && result.value.status.state == ON_HOLD)
  {
    var step := HoldStep(w, w.records[id].prepared, "OPERATOR_HOLD", env);
    DueIsFresh(w, id, command);
    HoldUnfolds(w, id, command, token, env);
    HoldIsRecorded(w, id, "OPERATOR_HOLD", env);
    CompletedHoldStands(step.world, id, command, step.outcome.value, env);
  }

  lemma CompletedHoldStands(w: World, id: string, command: OperatorCommand, outcome: IndexOutcome, env: Surroundings)
    requires id in w.records && command.action == Hold
    ensures var (w', result) := Finish(w, id, command, outcome, None, env);
            && (result.Ok? <==> !env.completionFault)
            && (result.Ok? ==> StandsAt(w', id, ON_HOLD) && result.value.outcome == Some(outcome)
                               && result.value.replacementId.None? && result.value.status.state == ON_HOLD)
  {
    Logged(w, id, CommandCompleted(command, Some(outcome), None));
  }

  // ---------------------------------------------------------------- approving

  /** The audit write fails behind an indexing that was due. */
  ghost predicate GateRaises(w: World, p: PreparedAnalysis, policy: PolicyResult, env: Surroundings)
    requires Ready(w)
  {
    env.auditFault && !IsMisfit(env, p) && MayIndex(w, p, policy, true, Calm(env))
  }

  lemma ApproveUnfolds(w: World, id: string, command: OperatorCommand, token: string, env: Surroundings)
    requires id in w.records && "anl_" + token !in w.records && IsFresh(w, id, command) && command.action == Approve
    ensures var policy, result := LatestAppliedPolicy(w.records[id].events), ExecuteStep(w, id, command, token, env).1;
            policy.Some? && policy.value.decision == ALLOW && policy.value.indexAction != INDEX ==> result.Err?
  {
  }

  /** A due approval of an ALLOW to index succeeds unless one of the two writes behind it fails. It leaves the
      analysis indexed or quarantined, as the gate decided. */
  lemma ApproveSucceeds(w: World, id: string, command: OperatorCommand, token: string, env: Surroundings)
    requires WellFormed(w.index) && IsDueNow(w, id, command, token) && command.action == Approve
    requires w.records[id].prepared.analysisId == id && ChainValid(w, id)
    ensures Fold(w.records[id].events).policy.Some?
    ensures var policy := Fold(w.records[id].events).policy.value; var (w', result) := ExecuteStep(w, id, command, token, env);
            && (result.Ok? <==>
                  policy.indexAction == INDEX && !env.completionFault && !GateRaises(w, w.records[id].prepared, policy, env))
            && (result.Ok? ==>
                  && result.value.outcome.Some? && result.value.outcome.value.action != HOLD && result.value.replacementId.None?
                  && StandsAt(w', id, if result.value.outcome.value.action == INDEX then INDEXED else QUARANTINED)
                  && (result.value.outcome.value.action == INDEX <==> MayIndex(w, w.records[id].prepared, policy, true, env)))
  {
    var p, policy := w.records[id].prepared, Fold(w.records[id].events).policy.value;
    PolicyIsLatest(w.records[id].events);
    DueIsFresh(w, id, command);
    if policy.indexAction == INDEX {
      var step := ApplyStep(w, p, policy, true, env);
      FreshApproval(w, id, command, token, env);
      RaisesExactly(w, p, policy, true, env);
      IndexesExactly(w, p, policy, true, env);
      if step.outcome.Some? { ApprovalStands(w, id, command, policy, step, env); }
    } else {
      ApproveUnfolds(w, id, command, token, env);
    }
  }

  lemma ApprovalStands(w: World, id: string, command: OperatorCommand, policy: PolicyResult, step: GateStep, env: Surroundings)
    requires id in w.records && w.records[id].prepared.analysisId == id && ChainValid(w, id) && policy.decision == ALLOW
    requires command.action == Approve && step == ApplyStep(w, w.records[id].prepared, policy, true, env) && step.outcome.Some?
    ensures step.outcome.value.action != HOLD
    ensures var w' := Log(step.world, id, CommandCompleted(command, step.outcome, None));
            StandsAt(w', id, if step.outcome.value.action == INDEX then INDEXED else QUARANTINED)
  {
    HeldExactly(w, w.records[id].prepared, policy, true, env);
    OutcomeIsRecorded(w, w.records[id].prepared, policy, true, env);
    OutcomeStands(step.world, id, step.outcome.value);
    CompletionStands(step.world, id, command, step.outcome, None, if step.outcome.value.action == INDEX then INDEXED else QUARANTINED);
  }

  /** Recording a completed approval or reanalysis leaves every state as it was, but that of a superseded one. */
  lemma CompletionStands(w: World, id: string, command: OperatorCommand, outcome: Option<IndexOutcome>, replacement: Option<string>,
                         state: WorkflowState)
    requires StandsAt(w, id, state) && command.action != Hold && (command.action == Reanalyze ==> state == SUPERSEDED)
    ensures var w' := Log(w, id, CommandCompleted(command, outcome, replacement));
            && StandsAt(w', id, state)
            && forall other | other in w.records && other != id :: other in w'.records && w'.records[other] == w.records[other]
  {
    Logged(w, id, CommandCompleted(command, outcome, replacement));
  }

  lemma OutcomeStands(w: World, id: string, outcome: IndexOutcome)
    requires EndsWithOutcome(w, id, outcome) && outcome.action != HOLD && (outcome.action == INDEX ==> outcome.indexed)
    ensures StandsAt(w, id, if outcome.action == INDEX then INDEXED else QUARANTINED)
  {
  }

  // ---------------------------------------------------------------- analysing again

  /** A due reanalysis succeeds exactly if the candidate's bytes are there and its recording does not fail. It
      leaves the analysis superseded by a new one, which waits for B's answer to a request of its own. */
  lemma ReanalyzeSucceeds(w: World, id: string, command: OperatorCommand, token: string, env: Surroundings)
    requires IsDueNow(w, id, command, token) && command.action == Reanalyze && w.records[id].prepared.analysisId == id
    ensures var (w', result), newId := ExecuteStep(w, id, command, token, env), "anl_" + token;
            && (result.Ok? <==> env.blob == Content(w.records[id].prepared.candidate.sha256) && !env.completionFault)
            && (result.Ok? ==>
                  && result.value.replacementId == Some(newId) && StandsAt(w', id, SUPERSEDED)
                  && StandsAt(w', newId, ANALYSIS_REQUESTED) && w'.records[newId].prepared.supersedes == Some(id))
  {
    var p := w.records[id].prepared;
    var step := HoldStep(w, p, "OPERATOR_REANALYZE_HOLD", env);
    DueIsFresh(w, id, command);
    FreshReanalysis(w, id, command, token, env);
    if env.blob == Content(p.candidate.sha256) {
      ReanalysisStands(step.world, p, token);
      CompletionStands(ReanalysisStep(step.world, p, token), id, command, step.outcome, Some("anl_" + token), SUPERSEDED);
    }
  }

  lemma ReanalysisStands(w: World, p: PreparedAnalysis, token: string)
    requires "anl_" + token !in w.records && p.analysisId in w.records
    ensures var w', newId := ReanalysisStep(w, p, token), "anl_" + token;
            && StandsAt(w', p.analysisId, SUPERSEDED) && StandsAt(w', newId, ANALYSIS_REQUESTED)
            && w'.records[newId].prepared.supersedes == Some(p.analysisId)
  {
    var replacement := Replacement(w, p, token);
    var w1 := RecordPrepared(w, replacement);
    var w2 := Log(w1, p.analysisId, AnalysisSuperseded(replacement.analysisId));
    RecordedIsUnasked(w, replacement);
    SupersedingStands(w1, p.analysisId, replacement.analysisId);
    FirstRequestStands(w2, replacement.analysisId, token);
    assert ReanalysisStep(w, p, token) == EnsureRequest(w2, replacement.analysisId, token).0;
  }

  lemma SupersedingStands(w: World, id: string, newId: string)
    requires id in w.records
    ensures var w' := Log(w, id, AnalysisSuperseded(newId));
            && StandsAt(w', id, SUPERSEDED) && w'.records.Keys == w.records.Keys
            && forall other | other in w.records && other != id :: w'.records[other] == w.records[other]
  {
    Logged(w, id, AnalysisSuperseded(newId));
  }

  lemma RecordedIsUnasked(w: World, p: PreparedAnalysis)
    requires p.analysisId !in w.records
    ensures LatestRequest(RecordPrepared(w, p).records[p.analysisId].events).None?
  {
    var events := RecordPrepared(w, p).records[p.analysisId].events;
    assert |events| == 1 && events[0].payload == AnalysisPrepared(p) && events[..0] == [];
  }

  lemma FirstRequestStands(w: World, id: string, token: string)
    requires id in w.records && LatestRequest(w.records[id].events).None?
    ensures var w' := EnsureRequest(w, id, token).0;
            && StandsAt(w', id, ANALYSIS_REQUESTED) && w'.records[id].prepared == w.records[id].prepared
            && forall other | other in w.records && other != id :: other in w'.records && w'.records[other] == w.records[other]
  {
    Logged(w, id, AnalysisRequested(RequestFor(w.records[id].prepared, token)));
  }

  // ---------------------------------------------------------------- on every run

  /** What a due command needs around it to succeed. */
  ghost predicate Survives(w: World, id: string, command: OperatorCommand, env: Surroundings)
    requires Ready(w) && IsDue(w, id, command)
  {
    var p := w.records[id].prepared;
    && !env.completionFault
    && (command.action == Approve ==>
          && Fold(w.records[id].events).policy.value.indexAction == INDEX
          && !GateRaises(w, p, Fold(w.records[id].events).policy.value, env))
    && (command.action == Reanalyze ==> env.blob == Content(p.candidate.sha256))
  }

  /** The command was completed before, word for word, and still names the candidate. */
  ghost predicate IsRepeat(w: World, id: string, command: OperatorCommand) {
    && id in w.records && command.expectedCandidateSha256 == w.records[id].prepared.candidate.sha256
    && CompletedCommand(w.records[id].events, command.idempotencyKey).Some?
    && CompletedCommand(w.records[id].events, command.idempotencyKey).value.command == command
  }

  lemma StaleFails(w: World, id: string, command: OperatorCommand, token: string, env: Surroundings)
    requires "anl_" + token !in w.records && (id in w.records ==> !IsFresh(w, id, command))
    ensures ExecuteStep(w, id, command, token, env).0 == w
    ensures ExecuteStep(w, id, command, token, env).1.Ok? <==> IsRepeat(w, id, command)
  {
  }

  /** In every state of every run: a command succeeds exactly if it is due and nothing around it fails, or if it
      repeats one that did; one that is not due changes nothing. A hold ends on hold, an approval indexed or
      quarantined, a reanalysis superseded. */
  lemma CommandDecides(ws: seq<World>, steps: seq<Step>, n: nat, id: string, command: OperatorCommand, token: string, env: Surroundings)
    requires IsRun(ws, steps) && n < |ws| && "anl_" + token !in ws[n].records
    ensures WellFormed(ws[n].index)
    ensures var w := ws[n]; var (w', result) := ExecuteStep(w, id, command, token, env);
            if IsDue(w, id, command) then
              && (result.Ok? <==> Survives(w, id, command, env))
              && (result.Ok? && command.action == Hold ==> StandsAt(w', id, ON_HOLD))
              && (result.Ok? && command.action == Approve ==> StandsAt(w', id, INDEXED) || StandsAt(w', id, QUARANTINED))
              && (result.Ok? && command.action == Reanalyze ==> StandsAt(w', id, SUPERSEDED))
            else w' == w && (result.Ok? <==> IsRepeat(w, id, command))
  {
    var w := ws[n];
    RunsAreWellFormed(ws, steps, n);
    RunsAreChained(ws, steps, n);
    RunsConverse(ws, steps, n);
    if IsDue(w, id, command) {
      assert IsConversing(w, id);
      match command.action
      case Approve => ApproveSucceeds(w, id, command, token, env);
      case Hold => HoldSucceeds(w, id, command, token, env);
      case Reanalyze => ReanalyzeSucceeds(w, id, command, token, env);
    } else {
      if id in w.records { DueIsFresh(w, id, command); }
      StaleFails(w, id, command, token, env);
    }
  }
}
