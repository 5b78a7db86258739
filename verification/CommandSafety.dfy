/** What the operator's client may rely on: command results match, and replays repeat the first answer. */
module CommandSafety {
  import opened Wrappers
  import opened Contracts
  import opened Gate
  import opened Operations
  import opened Dashboard
  import opened Runs
  import opened LogViews
  import opened AuthoritySafety

  // ---------------------------------------------------------------- results match

  lemma ReplayMatches(w: World, id: string, command: OperatorCommand, token: string, env: Surroundings)
    requires AllSound(w) && id in w.records && "anl_" + token !in w.records
    requires CompletedCommand(w.records[id].events, command.idempotencyKey).Some?
    ensures var (w', result) := ExecuteStep(w, id, command, token, env);
            w' == w && (result.Ok? ==> CommandResultMatches(result.value, id, w.records[id].prepared.documentId, command))
  {
    assert Sound(w, id);
    CompletedIsRead(w.records[id].events, command.idempotencyKey);
    var saved := CompletedCommand(w.records[id].events, command.idempotencyKey).value;
    assert CommandSound(w.records[id].prepared, saved);
  }

  /** A status read from the log that ends with the outcome and the command. */
  lemma LastEntriesMatch(w: World, id: string, p: PreparedAnalysis, v: View, command: OperatorCommand, outcome: IndexOutcome)
    requires id in w.records && w.records[id].prepared == p && p.analysisId == id && Honest(outcome, p)
    requires command.action != Reanalyze && command.expectedCandidateSha256 == p.candidate.sha256
    requires command.action == Hold <==> outcome.action == HOLD
    requires ViewOf(w, id) == Completing(Gated(v, outcome), command, outcome, None)
    ensures CommandResultMatches(OperatorCommandResult(command, StatusOf(w, id), Some(outcome), None, false),
                                 id, p.documentId, command)
  {
  }

  lemma ApproveMatches(w: World, id: string, command: OperatorCommand, token: string, env: Surroundings)
    requires AllSound(w) && id in w.records && "anl_" + token !in w.records && env.removeFault.None?
    requires IsFresh(w, id, command) && command.action == Approve
    ensures var result := ExecuteStep(w, id, command, token, env).1;
            result.Ok? ==> CommandResultMatches(result.value, id, w.records[id].prepared.documentId, command)
  {
    assert Sound(w, id);
    var (w', result) := ExecuteStep(w, id, command, token, env);
    ApproveTouches(w, id, command, token, env);
    if result.Ok? {
      LastEntriesMatch(w', id, w.records[id].prepared, ViewOf(w, id), command, result.value.outcome.value);
    }
  }

  lemma HoldMatches(w: World, id: string, command: OperatorCommand, token: string, env: Surroundings)
    requires AllSound(w) && id in w.records && "anl_" + token !in w.records && env.removeFault.None?
    requires IsFresh(w, id, command) && command.action == Hold
    ensures var result := ExecuteStep(w, id, command, token, env).1;
            result.Ok? ==> CommandResultMatches(result.value, id, w.records[id].prepared.documentId, command)
  {
    assert Sound(w, id);
    var (w', result) := ExecuteStep(w, id, command, token, env);
    HoldCommandTouches(w, id, command, token, env);
    if result.Ok? {
      LastEntriesMatch(w', id, w.records[id].prepared, ViewOf(w, id), command, result.value.outcome.value);
    }
  }

  lemma SupersededMatches(w: World, id: string, p: PreparedAnalysis, v: View, command: OperatorCommand,
                          outcome: IndexOutcome, newId: string)
    requires id in w.records && w.records[id].prepared == p && p.analysisId == id && Honest(outcome, p)
    requires command.action == Reanalyze && command.expectedCandidateSha256 == p.candidate.sha256
    requires outcome.action == HOLD && newId != id && !IsBlank(newId)
    requires ViewOf(w, id) == Completing(Superseding(Gated(v, outcome), newId), command, outcome, Some(newId))
    ensures CommandResultMatches(OperatorCommandResult(command, StatusOf(w, id), Some(outcome), Some(newId), false),
                                 id, p.documentId, command)
  {
  }

  lemma ReanalyzeMatches(w: World, id: string, command: OperatorCommand, token: string, env: Surroundings)
    requires AllSound(w) && id in w.records && "anl_" + token !in w.records && env.removeFault.None?
    requires IsFresh(w, id, command) && command.action == Reanalyze
    ensures var result := ExecuteStep(w, id, command, token, env).1;
            result.Ok? ==> CommandResultMatches(result.value, id, w.records[id].prepared.documentId, command)
  {
    assert Sound(w, id);
    var (w', result) := ExecuteStep(w, id, command, token, env);
    ReanalyzeTouches(w, id, command, token, env);
    NewIdIsNotBlank(token);
    if result.Ok? {
      SupersededMatches(w', id, w.records[id].prepared, ViewOf(w, id), command, result.value.outcome.value, "anl_" + token);
    }
  }

  /** Every result `execute_command` returns on a guarded run, fresh or replayed, is one the client accepts. */
  lemma ResultsMatch(ws: seq<World>, steps: seq<Step>, n: nat, id: string, command: OperatorCommand, token: string, env: Surroundings)
    requires IsGuardedRun(ws, steps) && n < |ws| && id in ws[n].records
    requires "anl_" + token !in ws[n].records && env.removeFault.None?
    ensures var result := ExecuteStep(ws[n], id, command, token, env).1;
            result.Ok? ==> CommandResultMatches(result.value, id, ws[n].records[id].prepared.documentId, command)
  {
    GuardedRunsAreSound(ws, steps, n);
    if CompletedCommand(ws[n].records[id].events, command.idempotencyKey).Some? {
      ReplayMatches(ws[n], id, command, token, env);
    } else if IsFresh(ws[n], id, command) {
      match command.action
      case Approve => ApproveMatches(ws[n], id, command, token, env);
      case Hold => HoldMatches(ws[n], id, command, token, env);
      case Reanalyze => ReanalyzeMatches(ws[n], id, command, token, env);
    }
  }

  // ---------------------------------------------------------------- replays

  ghost predicate CompletedAs(w: World, id: string, key: string, saved: Payload) {
    id in w.records && CompletedCommand(w.records[id].events, key) == Some(saved)
  }

  /** What is behind a log completes nothing under the key. */
  ghost predicate NoneCompleted(events: seq<Event>, from: nat, key: string) {
    forall i | from <= i < |events| :: events[i].payload.CommandCompleted? ==> events[i].payload.command.idempotencyKey != key
  }

  lemma {:induction false} CompletedStays(events: seq<Event>, events': seq<Event>, key: string)
    requires |events| <= |events'| && events'[..|events|] == events && NoneCompleted(events', |events|, key)
    ensures CompletedCommand(events', key) == CompletedCommand(events, key)
  {
    if |events'| > |events| {
      var before := events'[..|events'| - 1];
      assert before[..|events|] == events;
      CompletedStays(events, before, key);
    } else {
      assert events' == events;
    }
  }

  lemma QuietKeepsCompleted(w: World, w': World, id: string, key: string, saved: Payload)
    requires GrowsQuietly(w, w', false) && CompletedAs(w, id, key, saved)
    ensures CompletedAs(w', id, key, saved)
  {
    assert RecordGrows(w.records[id], w'.records[id]) && AddsQuietly(w, w', id, false);
    CompletedStays(w.records[id].events, w'.records[id].events, key);
  }

  /** Recording a command completes its key, and no other. */
  lemma LogCompletes(w: World, id: string, completed: Payload)
    requires id in w.records && completed.CommandCompleted?
    ensures CompletedAs(Log(w, id, completed), id, completed.command.idempotencyKey, completed)
    ensures forall other, key, saved | CompletedAs(w, other, key, saved) && (other != id || key != completed.command.idempotencyKey) ::
              CompletedAs(Log(w, id, completed), other, key, saved)
  {
    Logged(w, id, completed);
  }

  lemma EndsKeepsCompleted(w: World, w': World, id: string, completed: Payload, other: string, key: string, saved: Payload)
    requires Ends(w, w', id, completed) && CompletedAs(w, other, key, saved)
    requires other != id || key != completed.command.idempotencyKey
    ensures CompletedAs(w', other, key, saved)
  {
    var w1 :| EndsAt(w, w1, w', id, completed);
    QuietKeepsCompleted(w, w1, other, key, saved);
    LogCompletes(w1, id, completed);
  }

  /** A command that succeeded is completed under its key afterwards, with the result it answered. */
  lemma SuccessIsCompleted(w: World, id: string, command: OperatorCommand, token: string, env: Surroundings)
    requires id in w.records && "anl_" + token !in w.records && ExecuteStep(w, id, command, token, env).1.Ok?
    ensures var (w', result) := ExecuteStep(w, id, command, token, env);
            CompletedAs(w', id, command.idempotencyKey, Completion(command, result.value))
  {
    var (w', result) := ExecuteStep(w, id, command, token, env);
    CommandExecutes(w, id, command, token, env);
    if IsFresh(w, id, command) {
      var w1 :| EndsAt(w, w1, w', id, Completion(command, result.value));
      LogCompletes(w1, id, Completion(command, result.value));
    } else {
      StaleSuccess(w, id, command, token, env);
    }
  }

  lemma StaleSuccess(w: World, id: string, command: OperatorCommand, token: string, env: Surroundings)
    requires id in w.records && "anl_" + token !in w.records && !IsFresh(w, id, command)
    requires ExecuteStep(w, id, command, token, env).1.Ok?
    ensures var result := ExecuteStep(w, id, command, token, env).1;
            CompletedAs(w, id, command.idempotencyKey, Completion(command, result.value))
  {
  }

  lemma CommandKeepsCompleted(w: World, other: string, command: OperatorCommand, token: string, env: Surroundings,
                              id: string, key: string, saved: Payload)
    requires "anl_" + token !in w.records && CompletedAs(w, id, key, saved)
    ensures CompletedAs(ExecuteStep(w, other, command, token, env).0, id, key, saved)
  {
    var (w', result) := ExecuteStep(w, other, command, token, env);
    CommandExecutes(w, other, command, token, env);
    if other in w.records && IsFresh(w, other, command) {
      if result.Ok? {
        EndsKeepsCompleted(w, w', other, Completion(command, result.value), id, key, saved);
      } else {
        QuietKeepsCompleted(w, w', id, key, saved);
      }
    }
  }

  lemma NextKeepsCompleted(w: World, step: Step, id: string, key: string, saved: Payload)
    requires Possible(w, step) && CompletedAs(w, id, key, saved)
    ensures CompletedAs(Next(w, step), id, key, saved)
  {
    if step.Command? {
      CommandKeepsCompleted(w, step.id, step.command, step.token, step.env, id, key, saved);
    } else {
      NextGrows(w, step);
      QuietKeepsCompleted(w, Next(w, step), id, key, saved);
    }
  }

  /** On every run a completed key keeps its command and result, and the analysis its evidence. */
  lemma {:induction false} StaysCompleted(ws: seq<World>, steps: seq<Step>, i: nat, j: nat, id: string, key: string, saved: Payload)
    requires IsRun(ws, steps) && i <= j < |ws| && CompletedAs(ws[i], id, key, saved)
    ensures CompletedAs(ws[j], id, key, saved) && ws[j].records[id].prepared == ws[i].records[id].prepared
    decreases j - i
  {
    if i < j {
      StepStaysCompleted(ws, steps, i, id, key, saved);
      StaysCompleted(ws, steps, i + 1, j, id, key, saved);
    }
  }

  lemma StepStaysCompleted(ws: seq<World>, steps: seq<Step>, i: nat, id: string, key: string, saved: Payload)
    requires IsRun(ws, steps) && i < |steps| && CompletedAs(ws[i], id, key, saved)
    ensures CompletedAs(ws[i + 1], id, key, saved) && ws[i + 1].records[id].prepared == ws[i].records[id].prepared
  {
    TakesStep(ws, steps, i);
    NextKeepsCompleted(ws[i], steps[i], id, key, saved);
    NextGrows(ws[i], steps[i]);
    assert RecordGrows(ws[i].records[id], ws[i + 1].records[id]);
  }

  /** On every run, however much later a command is sent again, it changes nothing and answers with the
      outcome and the replacement of its first execution. */
  lemma ReplayRepeats(ws: seq<World>, steps: seq<Step>, i: nat, j: nat, token: string, env: Surroundings)
    requires IsRun(ws, steps) && i < j < |ws| && steps[i].Command? && steps[i].id in ws[i].records
    requires "anl_" + steps[i].token !in ws[i].records && "anl_" + token !in ws[j].records
    requires ExecuteStep(ws[i], steps[i].id, steps[i].command, steps[i].token, steps[i].env).1.Ok?
    ensures var first := ExecuteStep(ws[i], steps[i].id, steps[i].command, steps[i].token, steps[i].env).1.value;
            var id, command := steps[i].id, steps[i].command;
            && id in ws[j].records
            && ExecuteStep(ws[j], id, command, token, env)
               == (ws[j], Ok(OperatorCommandResult(command, StatusOf(ws[j], id), first.outcome, first.replacementId, true)))
  {
    var w, id, command := ws[i], steps[i].id, steps[i].command;
    var (w', result) := ExecuteStep(w, id, command, steps[i].token, steps[i].env);
    TakesStep(ws, steps, i);
    SuccessIsCompleted(w, id, command, steps[i].token, steps[i].env);
    ExecuteGrows(w, id, command, steps[i].token, steps[i].env);
    SuccessNamesCandidate(w, w', id, command, steps[i].token, steps[i].env);
    StaysCompleted(ws, steps, i + 1, j, id, command.idempotencyKey, Completion(command, result.value));
    CompletedReplays(ws[j], id, command, Completion(command, result.value), token, env);
  }

  lemma SuccessNamesCandidate(w: World, w': World, id: string, command: OperatorCommand, token: string, env: Surroundings)
    requires id in w.records && "anl_" + token !in w.records && ExecuteStep(w, id, command, token, env).1.Ok? && Grows(w, w')
    ensures id in w'.records && command.expectedCandidateSha256 == w'.records[id].prepared.candidate.sha256
  {
    assert RecordGrows(w.records[id], w'.records[id]);
  }

  lemma CompletedReplays(w: World, id: string, command: OperatorCommand, saved: Payload, token: string, env: Surroundings)
    requires CompletedAs(w, id, command.idempotencyKey, saved) && "anl_" + token !in w.records
    requires saved.CommandCompleted? && saved.command == command
    requires command.expectedCandidateSha256 == w.records[id].prepared.candidate.sha256
    ensures ExecuteStep(w, id, command, token, env)
         == (w, Ok(OperatorCommandResult(command, StatusOf(w, id), saved.commandOutcome, saved.replacementId, true)))
  {
  }
}
