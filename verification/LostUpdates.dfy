/** No update is lost: an approval replaces only the version its analysis was prepared against. */
module LostUpdates {
  import opened Wrappers
  import opened Contracts
  import opened VersionedIndex
  import opened Gate
  import opened Operations
  import opened Runs
  import opened ApprovalSafety

  /** This step is an approval that indexes its candidate now. */
  ghost predicate IndexesNow(w: World, step: Step) {
    step.Command? && ApprovalIndexes(w, step.id, step.command, step.token, step.env)
  }

  /** An indexing replaces the version its analysis was prepared against, the baseline of its diff. */
  lemma IndexingReplacesBaseline(w: World, step: Step)
    requires WellFormed(w.index) && IndexesNow(w, step)
    ensures var p := w.records[step.id].prepared;
            && CurrentOf(w.index, p.documentId) == p.expectedCurrent
            && (p.expectedCurrent.Some? ==> p.expectedCurrent.value == p.baseline.sha256 == p.diff.baselineSha256)
            && Next(w, step).index == Stored(w.index, p.documentId, CandidateVersion(w, p))
            && CurrentOf(Next(w, step).index, p.documentId) == Some(p.candidate.sha256)
  {
    ApprovalReplacesBaseline(w, step.id, step.command, step.token, step.env);
  }

  lemma ApprovalReplacesBaseline(w: World, id: string, command: OperatorCommand, token: string, env: Surroundings)
    requires WellFormed(w.index) && ApprovalIndexes(w, id, command, token, env)
    ensures var p, index := w.records[id].prepared, ExecuteStep(w, id, command, token, env).0.index;
            && CurrentOf(w.index, p.documentId) == p.expectedCurrent
            && (p.expectedCurrent.Some? ==> p.expectedCurrent.value == p.baseline.sha256 == p.diff.baselineSha256)
            && index == Stored(w.index, p.documentId, CandidateVersion(w, p))
            && CurrentOf(index, p.documentId) == Some(p.candidate.sha256)
  {
    var p := w.records[id].prepared;
    IndexingMayIndex(w, id, command, token, env);
    StoredBecomesCurrent(w.index, p.documentId, CandidateVersion(w, p));
  }

  lemma StoredBecomesCurrent(index: Index, document: string, version: Version)
    requires WellFormed(index)
    ensures CurrentOf(Stored(index, document, version), document) == Some(version.sha)
  {
    StoredLaws(index, document, version);
    PromoteLaws(VersionsOf(index, document), version);
  }

  lemma NextKeepsWellFormed(w: World, step: Step)
    requires WellFormed(w.index) && Possible(w, step)
    ensures WellFormed(Next(w, step).index)
  {
    match step
    case Submit(id, submission, token, env) => SubmitKeepsWellFormed(w, id, submission, token, env);
    case Dispatch(id, answer, token, env) =>
      if id in w.records && answer.Some? {
        var (w1, request) := EnsureRequest(w, id, token);
        SubmitKeepsWellFormed(Log(w1, id, DispatchStarted(request.requestId)), id, answer.value, token, env);
      }
    case Command(id, command, token, env) =>
      if id in w.records { ExecuteKeepsWellFormed(w, id, command, token, env); }
    case _ =>
  }

  lemma SubmitKeepsWellFormed(w: World, id: string, submission: PolicySubmission, token: string, env: Surroundings)
    requires WellFormed(w.index)
    ensures WellFormed(SubmitStep(w, id, submission, token, env).0.index)
  {
    if id in w.records {
      AcceptStoresLess(EnsureRequest(w, id, token).0, id, submission, env);
    }
  }

  /** Recording the command does not touch the index. */
  lemma ApproveLeavesIndex(w: World, id: string, command: OperatorCommand, token: string, env: Surroundings)
    requires "anl_" + token !in w.records && id in w.records && command.action == Approve
    ensures var p, policy, index' := w.records[id].prepared, LatestAppliedPolicy(w.records[id].events),
                                     ExecuteStep(w, id, command, token, env).0.index;
            index' == w.index || (policy.Some? && index' == ApplyStep(w, p, policy.value, true, env).world.index)
  {
  }

  lemma ExecuteKeepsWellFormed(w: World, id: string, command: OperatorCommand, token: string, env: Surroundings)
    requires WellFormed(w.index) && id in w.records && "anl_" + token !in w.records
    ensures WellFormed(ExecuteStep(w, id, command, token, env).0.index)
  {
    var p, policy := w.records[id].prepared, LatestAppliedPolicy(w.records[id].events);
    if command.action == Approve {
      if policy.Some? { ApplyStores(w, p, policy.value, true, env); }
      ApproveLeavesIndex(w, id, command, token, env);
    } else {
      HoldStoresLess(w, p, "OPERATOR_HOLD", env);
      HoldStoresLess(w, p, "OPERATOR_REANALYZE_HOLD", env);
      HoldLeavesIndex(w, id, command, token, env);
    }
  }

  lemma {:induction false} RunsAreWellFormed(ws: seq<World>, steps: seq<Step>, n: nat)
    requires IsRun(ws, steps) && n < |ws|
    ensures WellFormed(ws[n].index)
  {
    if n > 0 {
      RunsAreWellFormed(ws, steps, n - 1);
      assert ws[n] == Next(ws[n - 1], steps[n - 1]);
      NextKeepsWellFormed(ws[n - 1], steps[n - 1]);
    }
  }

  /** Somewhere between two states the current version turns into `sha`. */
  lemma {:induction false} CurrentReturns(ws: seq<World>, i: nat, j: nat, document: string, current: Option<string>)
    returns (k: nat)
    requires i <= j < |ws|
    requires CurrentOf(ws[i].index, document) != current && CurrentOf(ws[j].index, document) == current
    ensures i <= k < j && CurrentOf(ws[k].index, document) != current && CurrentOf(ws[k + 1].index, document) == current
    decreases j - i
  {
    if CurrentOf(ws[i + 1].index, document) == current {
      k := i;
    } else {
      k := CurrentReturns(ws, i + 1, j, document, current);
    }
  }

  /** Of two analyses prepared against one current version, the second indexes only after some step
      in between brought that version back. */
  lemma SecondNeedsReturn(ws: seq<World>, steps: seq<Step>, i: nat, j: nat) returns (k: nat)
    requires IsRun(ws, steps) && i < j < |steps| && IndexesNow(ws[i], steps[i]) && IndexesNow(ws[j], steps[j])
    requires var p, q := ws[i].records[steps[i].id].prepared, ws[j].records[steps[j].id].prepared;
             && p.documentId == q.documentId && p.expectedCurrent == q.expectedCurrent
             && p.expectedCurrent != Some(p.candidate.sha256)
    ensures var q := ws[j].records[steps[j].id].prepared;
            && i < k < j
            && CurrentOf(ws[k].index, q.documentId) != q.expectedCurrent
            && CurrentOf(ws[k + 1].index, q.documentId) == q.expectedCurrent
  {
    var q := ws[j].records[steps[j].id].prepared;
    RunsAreWellFormed(ws, steps, i);
    RunsAreWellFormed(ws, steps, j);
    IndexingReplacesBaseline(ws[i], steps[i]);
    IndexingReplacesBaseline(ws[j], steps[j]);
    assert ws[i + 1] == Next(ws[i], steps[i]);
    k := CurrentReturns(ws, i + 1, j, q.documentId, q.expectedCurrent);
  }
}
