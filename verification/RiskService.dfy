/** The loops of the risk service, and what its decisions promise. */
module RiskService {
  import opened Wrappers
  import opened Contracts
  import opened RiskEngine

  // ---------------------------------------------------------------- the loops

  method FindHidden(units: seq<Unit>) returns (hidden: seq<Unit>)
    ensures hidden == HiddenUnits(units)
  {
    hidden := [];
    for i := 0 to |units|
      invariant hidden == HiddenUnits(units[..i])
    {
      assert units[..i + 1][..i] == units[..i];
      if units[i].isHidden {
        hidden := hidden + [units[i]];
      }
    }
    assert units[..|units|] == units;
  }

  method AssessNumbers(e: Evidence, rules: TextRules, start: Assessed) returns (a: Assessed, classified: set<int>)
    ensures a == Numbers(e, rules, start, |e.numericChanges|)
    ensures classified == Indices(e.numericChanges)
  {
    a, classified := start, {};
    for n := 0 to |e.numericChanges|
      invariant a == Numbers(e, rules, start, n)
      invariant classified == Indices(e.numericChanges[..n])
    {
      a := WithNumber(a, e.numericChanges[n], e.changes, rules);
      classified := classified + {e.numericChanges[n].changeIndex};
      assert e.numericChanges[..n + 1] == e.numericChanges[..n] + [e.numericChanges[n]];
    }
    assert e.numericChanges[..|e.numericChanges|] == e.numericChanges;
  }

  method AssessDates(e: Evidence, rules: TextRules, start: Assessed, numbered: set<int>)
    returns (a: Assessed, classified: set<int>, incoming: seq<Unit>)
    ensures a == Dates(e, rules, start, |e.changes|) && incoming == Incoming(e.changes)
    ensures forall i | 0 <= i < |e.changes| :: i in classified <==> i in numbered || ChangesDates(e.changes[i], rules)
  {
    a, classified, incoming := start, numbered, [];
    for n := 0 to |e.changes|
      invariant a == Dates(e, rules, start, n) && incoming == Incoming(e.changes[..n])
      invariant forall i | 0 <= i < |e.changes| :: i in classified <==> i in numbered || (i < n && ChangesDates(e.changes[i], rules))
    {
      var change := e.changes[n];
      assert e.changes[..n + 1][..n] == e.changes[..n];
      if TextOf(change.after) != "" {
        incoming := incoming + [Unit(TextOf(change.after), false)];
      }
      if ChangesDates(change, rules) {
        classified := classified + {n};
      }
      a := WithDates(a, change, rules);
    }
    assert e.changes[..|e.changes|] == e.changes;
  }

  method AssessArtifacts(e: Evidence, anyHidden: bool) returns (a: Assessed, hardBlock: bool)
    requires anyHidden == (HiddenUnits(e.units) != [])
    ensures a == Artifacts(e, |e.artifacts|) && hardBlock == HardBlocks(e)
  {
    a, hardBlock := NO_FINDINGS, false;
    for n := 0 to |e.artifacts|
      invariant a == Artifacts(e, n)
      invariant hardBlock == exists i :: 0 <= i < n && IsHardBlock(e.artifacts[i])
    {
      a := WithArtifact(a, e.artifacts[n], anyHidden);
      hardBlock := hardBlock || IsHardBlock(e.artifacts[n]);
    }
  }

  method AssessPrompts(units: seq<Unit>, rules: TextRules, start: Assessed) returns (a: Assessed)
    ensures a == Prompts(units, rules, start, |units|)
  {
    a := start;
    for n := 0 to |units|
      invariant a == Prompts(units, rules, start, n)
    {
      a := WithPrompt(a, units[n], rules);
    }
  }

  method AssessMeanings(e: Evidence, rules: TextRules, start: Assessed, classified: set<int>) returns (a: Assessed)
    requires forall i | 0 <= i < |e.changes| :: i in classified <==> IsClassified(e, rules, i)
    ensures a == Meanings(e, rules, start, |e.changes|)
  {
    a := start;
    for n := 0 to |e.changes|
      invariant a == Meanings(e, rules, start, n)
    {
      a := WithMeaning(a, e.changes[n], n in classified, rules);
    }
  }

  /** `assess_static_risk`: five rounds over the evidence, in its order. */
  method AssessStaticRisk(e: Evidence, rules: TextRules) returns (a: Assessed, hardBlock: bool)
    ensures a == Assess(e, rules) && hardBlock == HardBlocks(e)
  {
    var hidden := FindHidden(e.units);
    var numbered, classified, incoming;
    a, hardBlock := AssessArtifacts(e, hidden != []);
    a := WithHidden(a, hidden);
    a, numbered := AssessNumbers(e, rules, a);
    a, classified, incoming := AssessDates(e, rules, a, numbered);
    a := AssessPrompts(incoming + hidden, rules, a);
    a := AssessMeanings(e, rules, a, classified);
    a := WithContent(a, e.changes);
  }

  method DeduplicateFindings(rules: TextRules, findings: seq<Finding>) returns (output: seq<Finding>)
    ensures output == Deduplicate(rules, findings)
  {
    output := [];
    var seen: set<(string, Option<string>, Option<string>, string)> := {};
    for i := 0 to |findings|
      invariant output == Deduplicate(rules, findings[..i])
      invariant seen == set f | f in output :: KeyOf(rules, f)
    {
      var finding := findings[i];
      assert findings[..i + 1][..i] == findings[..i];
      if KeyOf(rules, finding) !in seen {
        seen := seen + {KeyOf(rules, finding)};
        output := output + [finding];
      }
    }
    assert findings[..|findings|] == findings;
  }

  function KeyOf(rules: TextRules, f: Finding): (string, Option<string>, Option<string>, string) {
    (rules.typeOf(f.cause), f.before, f.after, rules.reasonOf(f.cause))
  }

  // ---------------------------------------------------------------- scores and findings agree

  predicate IsSevere(finding: Finding) { finding.severity in {HIGH, CRITICAL} }

  predicate AnySevere(findings: seq<Finding>) { exists f :: f in findings && IsSevere(f) }

  /** Scores and findings tell the same story. */
  predicate Agree(a: Assessed) {
    && (a.score == 0 || 30 <= a.score <= 100)
    && (a.findings != [] <==> a.score >= 30)
    && (AnySevere(a.findings) <==> a.score >= 70)
  }

  /** Hidden text noted by an extractor is not reported before the hidden units are. */
  predicate AgreeButHidden(a: Assessed, anyHidden: bool) {
    && (a.score == 0 || 30 <= a.score <= 100)
    && (a.findings != [] ==> a.score >= 30) && (AnySevere(a.findings) ==> a.score >= 70)
    && (!anyHidden ==> Agree(a))
  }

  lemma ScoredAgrees(a: Assessed, score: int, f: Finding)
    requires Agree(a) && 30 <= score <= 100 && (IsSevere(f) <==> score >= 70)
    ensures Agree(Scored(a, score, [f]))
  {
    var a' := Scored(a, score, [f]);
    assert a'.findings[|a.findings|] == f;
    if AnySevere(a.findings) {
      var s :| s in a.findings && IsSevere(s);
      assert s in a'.findings;
    }
  }

  lemma {:induction false} ArtifactsAgree(e: Evidence, n: nat)
    requires n <= |e.artifacts|
    ensures AgreeButHidden(Artifacts(e, n), HiddenUnits(e.units) != [])
    ensures Artifacts(e, n).score == 0 <==> n == 0
  {
    if n > 0 {
      ArtifactsAgree(e, n - 1);
      ArtifactAgrees(Artifacts(e, n - 1), e.artifacts[n - 1], HiddenUnits(e.units) != []);
    }
  }

  lemma ArtifactAgrees(a: Assessed, note: ArtifactNote, anyHidden: bool)
    requires AgreeButHidden(a, anyHidden)
    ensures AgreeButHidden(WithArtifact(a, note, anyHidden), anyHidden) && WithArtifact(a, note, anyHidden).score >= 30
  {
    var a' := WithArtifact(a, note, anyHidden);
    if !anyHidden {
      ScoredAgrees(a, ArtifactScore(note), a'.findings[|a.findings|]);
    } else if a'.findings != a.findings {
      var f := a'.findings[|a.findings|];
      assert a'.findings == a.findings + [f];
      if AnySevere(a.findings) {
        var s :| s in a.findings && IsSevere(s);
        assert s in a'.findings;
      }
      if AnySevere(a'.findings) {
        var s :| s in a'.findings && IsSevere(s);
        assert s in a.findings || s == f;
      }
    }
  }

  lemma HiddenAgrees(a: Assessed, hidden: seq<Unit>)
    requires AgreeButHidden(a, hidden != [])
    ensures Agree(WithHidden(a, hidden))
    ensures WithHidden(a, hidden).score == 0 <==> a.score == 0 && hidden == []
  {
    if hidden != [] {
      var a' := WithHidden(a, hidden);
      assert IsSevere(a'.findings[|a.findings|]);
    }
  }

  lemma {:induction false} NumbersAgree(e: Evidence, rules: TextRules, a: Assessed, n: nat)
    requires n <= |e.numericChanges| && Agree(a)
    ensures Agree(Numbers(e, rules, a, n)) && Numbers(e, rules, a, n).score >= a.score
    ensures Numbers(e, rules, a, n).score == 0 <==> a.score == 0 && n == 0
  {
    if n > 0 {
      NumbersAgree(e, rules, a, n - 1);
      var before, after := Numbers(e, rules, a, n - 1), Numbers(e, rules, a, n);
      ScoredAgrees(before, if InPolicy(e.numericChanges[n - 1], e.changes, rules) then 75 else 55, after.findings[|before.findings|]);
    }
  }

  lemma {:induction false} DatesAgree(e: Evidence, rules: TextRules, a: Assessed, n: nat)
    requires n <= |e.changes| && Agree(a)
    ensures Agree(Dates(e, rules, a, n)) && Dates(e, rules, a, n).score >= a.score
    ensures n == 0 ==> Dates(e, rules, a, n) == a
  {
    if n > 0 {
      DatesAgree(e, rules, a, n - 1);
      var before, after, change := Dates(e, rules, a, n - 1), Dates(e, rules, a, n), e.changes[n - 1];
      if ChangesDates(change, rules) {
        ScoredAgrees(before, if rules.isPolicy(Adjoined(change)) then 70 else 50, after.findings[|before.findings|]);
      }
    }
  }

  lemma {:induction false} PromptsAgree(units: seq<Unit>, rules: TextRules, a: Assessed, n: nat)
    requires n <= |units| && Agree(a)
    ensures Agree(Prompts(units, rules, a, n)) && Prompts(units, rules, a, n).score >= a.score
    ensures n == 0 ==> Prompts(units, rules, a, n) == a
  {
    if n > 0 {
      PromptsAgree(units, rules, a, n - 1);
      var before, after, unit := Prompts(units, rules, a, n - 1), Prompts(units, rules, a, n), units[n - 1];
      if rules.isInjection(unit.text) {
        ScoredAgrees(before, if unit.isHidden then 95 else 85, after.findings[|before.findings|]);
      }
    }
  }

  lemma {:induction false} MeaningsAgree(e: Evidence, rules: TextRules, a: Assessed, n: nat)
    requires n <= |e.changes| && Agree(a)
    ensures Agree(Meanings(e, rules, a, n)) && Meanings(e, rules, a, n).score >= a.score
    ensures n == 0 ==> Meanings(e, rules, a, n) == a
  {
    if n > 0 {
      MeaningsAgree(e, rules, a, n - 1);
      var before, after := Meanings(e, rules, a, n - 1), Meanings(e, rules, a, n);
      if after != before {
        ScoredAgrees(before, 50, after.findings[|before.findings|]);
      }
    }
  }

  lemma ContentAgrees(a: Assessed, changes: seq<Change>)
    requires Agree(a)
    ensures Agree(WithContent(a, changes))
    ensures WithContent(a, changes).score == 0 <==> a.score == 0 && changes == []
  {
    if changes != [] && a.findings == [] {
      ScoredAgrees(a, 35, WithContent(a, changes).findings[0]);
    }
  }

  /** Nothing changed, nothing embedded, nothing hidden. */
  predicate IsQuiet(e: Evidence) {
    e.changes == [] && e.numericChanges == [] && e.artifacts == [] && HiddenUnits(e.units) == []
  }

  /** The static score is zero exactly for quiet evidence and else at least 30; there are findings exactly
      then, and a severe one exactly when the score blocks. */
  lemma StaticScoreMeans(e: Evidence, rules: TextRules)
    ensures Agree(Assess(e, rules))
    ensures Assess(e, rules).score == 0 <==> IsQuiet(e)
  {
    var hidden := HiddenUnits(e.units);
    var units := PromptCandidates(e.changes, hidden);
    var a0 := Artifacts(e, |e.artifacts|);
    var a1 := WithHidden(a0, hidden);
    var a2 := Numbers(e, rules, a1, |e.numericChanges|);
    var a3 := Dates(e, rules, a2, |e.changes|);
    var a4 := Prompts(units, rules, a3, |units|);
    var a5 := Meanings(e, rules, a4, |e.changes|);
    ArtifactsAgree(e, |e.artifacts|);
    HiddenAgrees(a0, hidden);
    NumbersAgree(e, rules, a1, |e.numericChanges|);
    DatesAgree(e, rules, a2, |e.changes|);
    PromptsAgree(units, rules, a3, |units|);
    MeaningsAgree(e, rules, a4, |e.changes|);
    ContentAgrees(a5, e.changes);
  }

  // ---------------------------------------------------------------- decisions

  function Rank(decision: Decision): nat {
    match decision case ALLOW => 0 case REVIEW => 1 case BLOCK => 2
  }

  /** The judge raised an error in a phase it was asked in. */
  predicate JudgeFails(a: Assessed, judge: Judge) {
    var primary := judge.primary(a.findings);
    || primary.Raised?
    || (var a1 := Heard(a, primary.assessment, LLM_PRIMARY); a1.score >= 70 && judge.audit(a1.findings).Raised?)
  }

  /** Consulting never lowers a score, and an error leaves at least a review unless artifacts block. */
  lemma ConsultingRaises(a: Assessed, judge: Judge, hardBlock: bool)
    ensures Consult(a, judge, hardBlock).score >= a.score
    ensures JudgeFails(a, judge) && !hardBlock ==> Consult(a, judge, hardBlock).score >= 50
  {
  }

  /** Without a judge: a document is allowed exactly when the request is intact and the evidence quiet, and
      blocked exactly when it is not intact or holds a severe finding. */
  lemma AllowedExactlyWhenQuiet(e: Evidence, rules: TextRules, submittedBy: string)
    ensures var decision := Analyze(e, rules, None, submittedBy).submission.policy.decision;
            && (decision == ALLOW <==> IntegrityIssue(e).None? && IsQuiet(e))
            && (decision == BLOCK <==> IntegrityIssue(e).Some? || AnySevere(Assess(e, rules).findings))
  {
    StaticScoreMeans(e, rules);
    if HardBlocks(e) { HardBlockIsSevere(e, rules); }
  }

  lemma HardBlockIsSevere(e: Evidence, rules: TextRules)
    requires HardBlocks(e)
    ensures Assess(e, rules).score == 100
  {
    var n: nat :| n < |e.artifacts| && IsHardBlock(e.artifacts[n]);
    var hidden := HiddenUnits(e.units);
    var units := PromptCandidates(e.changes, hidden);
    var a0 := Artifacts(e, |e.artifacts|);
    var a1 := WithHidden(a0, hidden);
    var a2 := Numbers(e, rules, a1, |e.numericChanges|);
    var a3 := Dates(e, rules, a2, |e.changes|);
    var a4 := Prompts(units, rules, a3, |units|);
    HardBlockStays(e, n, |e.artifacts|);
    ArtifactsAgree(e, |e.artifacts|);
    HiddenAgrees(a0, hidden);
    NumbersAgree(e, rules, a1, |e.numericChanges|);
    DatesAgree(e, rules, a2, |e.changes|);
    PromptsAgree(units, rules, a3, |units|);
    MeaningsAgree(e, rules, a4, |e.changes|);
  }

  lemma {:induction false} HardBlockStays(e: Evidence, i: nat, n: nat)
    requires i < n <= |e.artifacts| && IsHardBlock(e.artifacts[i])
    ensures Artifacts(e, n).score >= 100
  {
    if i < n - 1 { HardBlockStays(e, i, n - 1); }
  }

  /** With any judge the decision is never milder than without, and never ALLOW once the judge has failed;
      whatever the judge says, the result is valid and bound to the request and its candidate. */
  lemma JudgeOnlyTightens(e: Evidence, rules: TextRules, judge: Judge, submittedBy: string)
    ensures var without := Analyze(e, rules, None, submittedBy).submission.policy;
            var with := Analyze(e, rules, Some(judge), submittedBy).submission;
            && Rank(with.policy.decision) >= Rank(without.decision) && with.policy.riskScore >= without.riskScore
            && (IntegrityIssue(e).None? && JudgeFails(Assessed(Reported(rules, Assess(e, rules).findings), Assess(e, rules).score), judge)
                ==> with.policy.decision != ALLOW)
            && with.policy.Valid() && with.requestId == e.request.requestId
            && with.policy.candidateSha256 == Some(e.request.candidateSha256)
            && (with.policy.status == FAILED <==> IntegrityIssue(e).Some?)
  {
    StaticScoreMeans(e, rules);
    ConsultingRaises(Assessed(Reported(rules, Assess(e, rules).findings), Assess(e, rules).score), judge, HardBlocks(e));
  }
}
