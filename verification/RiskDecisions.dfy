/** What the risk service decides, in terms of the evidence and of the judge's answers alone. */
module RiskDecisions {
  import opened Wrappers
  import opened Contracts
  import opened RiskEngine
  import opened RiskService
  import Gate

  // ---------------------------------------------------------------- evidence that blocks

  predicate IsAlarming(note: ArtifactNote) {
    note.kind in Gate.HARD_BLOCK_ARTIFACT_TYPES || note.kind == "HIDDEN_TEXT" || note.kind == "CONTROL_CHARACTERS"
  }

  predicate ChangesPolicyDates(change: Change, rules: TextRules) {
    && rules.dates(TextOf(change.before)) != rules.dates(TextOf(change.after))
    && rules.isPolicy(TextOf(change.before) + TextOf(change.after))
  }

  predicate BringsInstructions(change: Change, rules: TextRules) {
    change.after.Some? && change.after.value != "" && rules.isInjection(change.after.value)
  }

  /** A blocking or hiding artifact, hidden text, a changed number or date of a policy, or an injected instruction. */
  predicate IsGrave(e: Evidence, rules: TextRules) {
    || (exists note :: note in e.artifacts && IsAlarming(note))
    || (exists unit :: unit in e.units && unit.isHidden)
    || (exists numeric :: numeric in e.numericChanges && InPolicy(numeric, e.changes, rules))
    || (exists change :: change in e.changes && ChangesPolicyDates(change, rules))
    || (exists change :: change in e.changes && BringsInstructions(change, rules))
  }

  predicate Blocks(a: Assessed) { a.score >= 70 }

  lemma {:induction false} ArtifactsBlock(e: Evidence, n: nat)
    requires n <= |e.artifacts|
    ensures Blocks(Artifacts(e, n)) <==> exists note :: note in e.artifacts[..n] && IsAlarming(note)
  {
    if n > 0 {
      ArtifactsBlock(e, n - 1);
      assert e.artifacts[..n] == e.artifacts[..n - 1] + [e.artifacts[n - 1]];
      assert e.artifacts[n - 1] in e.artifacts[..n];
      assert forall note | note in e.artifacts[..n] :: note in e.artifacts[..n - 1] || note == e.artifacts[n - 1];
    }
  }

  lemma {:induction false} AnyHidden(units: seq<Unit>)
    ensures HiddenUnits(units) != [] <==> exists unit :: unit in units && unit.isHidden
    ensures forall unit | unit in HiddenUnits(units) :: unit in units && unit.isHidden
  {
    if units != [] {
      var before, last := units[..|units| - 1], units[|units| - 1];
      AnyHidden(before);
      assert units == before + [last] && last in units;
      assert forall unit | unit in units :: unit in before || unit == last;
    }
  }

  lemma {:induction false} NumbersBlock(e: Evidence, rules: TextRules, a: Assessed, n: nat)
    requires n <= |e.numericChanges|
    ensures Blocks(Numbers(e, rules, a, n)) <==>
              Blocks(a) || exists i :: 0 <= i < n && InPolicy(e.numericChanges[i], e.changes, rules)
  {
    if n > 0 { NumbersBlock(e, rules, a, n - 1); }
  }

  lemma {:induction false} DatesBlock(e: Evidence, rules: TextRules, a: Assessed, n: nat)
    requires n <= |e.changes|
    ensures Blocks(Dates(e, rules, a, n)) <==>
              Blocks(a) || exists i :: 0 <= i < n && ChangesPolicyDates(e.changes[i], rules)
  {
    if n > 0 { DatesBlock(e, rules, a, n - 1); }
  }

  lemma {:induction false} PromptsBlock(units: seq<Unit>, rules: TextRules, a: Assessed, n: nat)
    requires n <= |units|
    ensures Blocks(Prompts(units, rules, a, n)) <==>
              Blocks(a) || AnyInstructs(units[..n], rules)
  {
    if n > 0 {
      PromptsBlock(units, rules, a, n - 1);
      assert forall i | 0 <= i < n - 1 :: units[..n][i] == units[..n - 1][i];
      assert units[..n][n - 1] == units[n - 1];
    }
  }

  lemma {:induction false} MeaningsBlock(e: Evidence, rules: TextRules, a: Assessed, n: nat)
    requires n <= |e.changes|
    ensures Blocks(Meanings(e, rules, a, n)) <==> Blocks(a)
  {
    if n > 0 { MeaningsBlock(e, rules, a, n - 1); }
  }

  lemma {:induction false} IncomingTexts(changes: seq<Change>, text: string)
    ensures (exists unit :: unit in Incoming(changes) && unit.text == text)
       <==> text != "" && exists change :: change in changes && change.after == Some(text)
  {
    if changes != [] {
      var before, last := changes[..|changes| - 1], changes[|changes| - 1];
      IncomingTexts(before, text);
      assert changes == before + [last] && last in changes;
      assert forall change | change in changes :: change in before || change == last;
      var added := Incoming(changes)[|Incoming(before)|..];
      assert Incoming(changes) == Incoming(before) + added;
      assert TextOf(last.after) != "" ==> added[0] in Incoming(changes);
    }
  }

  /** Some unit holds instructions. */
  predicate AnyInstructs(units: seq<Unit>, rules: TextRules) {
    exists i :: 0 <= i < |units| && rules.isInjection(units[i].text)
  }

  predicate AnyBringsInstructions(changes: seq<Change>, rules: TextRules) {
    exists change :: change in changes && BringsInstructions(change, rules)
  }

  lemma IncomingInstructs(changes: seq<Change>, rules: TextRules)
    ensures AnyInstructs(Incoming(changes), rules) <==> AnyBringsInstructions(changes, rules)
  {
    var incoming := Incoming(changes);
    if AnyInstructs(incoming, rules) {
      var i :| 0 <= i < |incoming| && rules.isInjection(incoming[i].text);
      IncomingTexts(changes, incoming[i].text);
      assert incoming[i] in incoming;
      var change :| change in changes && change.after == Some(incoming[i].text);
      assert BringsInstructions(change, rules);
    }
    if AnyBringsInstructions(changes, rules) {
      var change :| change in changes && BringsInstructions(change, rules);
      IncomingTexts(changes, change.after.value);
      var unit :| unit in incoming && unit.text == change.after.value;
      var i :| 0 <= i < |incoming| && incoming[i] == unit;
    }
  }

  /** Instructions are found where a change brings them in, or where they are hidden. */
  lemma PromptsAreFound(e: Evidence, rules: TextRules)
    ensures var units := PromptCandidates(e.changes, HiddenUnits(e.units));
            && (AnyInstructs(units, rules) ==> AnyBringsInstructions(e.changes, rules) || HiddenUnits(e.units) != [])
            && (AnyBringsInstructions(e.changes, rules) ==> AnyInstructs(units, rules))
  {
    var incoming, hidden := Incoming(e.changes), HiddenUnits(e.units);
    var units := PromptCandidates(e.changes, hidden);
    IncomingInstructs(e.changes, rules);
    assert forall i | 0 <= i < |incoming| :: units[i] == incoming[i];
    if AnyInstructs(incoming, rules) {
      var i :| 0 <= i < |incoming| && rules.isInjection(incoming[i].text);
      assert rules.isInjection(units[i].text);
    }
  }

  /** The static score blocks exactly for grave evidence. */
  lemma GraveExactly(e: Evidence, rules: TextRules)
    ensures Assess(e, rules).score >= 70 <==> IsGrave(e, rules)
  {
    var hidden := HiddenUnits(e.units);
    var units := PromptCandidates(e.changes, hidden);
    var a0 := Artifacts(e, |e.artifacts|);
    var a1 := WithHidden(a0, hidden);
    var a2 := Numbers(e, rules, a1, |e.numericChanges|);
    var a3 := Dates(e, rules, a2, |e.changes|);
    var a4 := Prompts(units, rules, a3, |units|);
    ArtifactsBlock(e, |e.artifacts|);
    assert e.artifacts[..|e.artifacts|] == e.artifacts;
    AnyHidden(e.units);
    NumbersBlock(e, rules, a1, |e.numericChanges|);
    DatesBlock(e, rules, a2, |e.changes|);
    PromptsBlock(units, rules, a3, |units|);
    assert units[..|units|] == units;
    PromptsAreFound(e, rules);
    MeaningsBlock(e, rules, a4, |e.changes|);
    RoundsBlock(e, rules, a0, a1, a2, a3, a4);
  }

  lemma RoundsBlock(e: Evidence, rules: TextRules, a0: Assessed, a1: Assessed, a2: Assessed, a3: Assessed, a4: Assessed)
    requires Blocks(a0) <==> exists note :: note in e.artifacts && IsAlarming(note)
    requires a1 == WithHidden(a0, HiddenUnits(e.units))
    requires HiddenUnits(e.units) != [] <==> exists unit :: unit in e.units && unit.isHidden
    requires Blocks(a2) <==> Blocks(a1) || exists i :: 0 <= i < |e.numericChanges| && InPolicy(e.numericChanges[i], e.changes, rules)
    requires Blocks(a3) <==> Blocks(a2) || exists i :: 0 <= i < |e.changes| && ChangesPolicyDates(e.changes[i], rules)
    requires Blocks(a3) || AnyBringsInstructions(e.changes, rules) <==> Blocks(a4)
    ensures Blocks(a4) <==> IsGrave(e, rules)
  {
    assert forall i | 0 <= i < |e.numericChanges| :: e.numericChanges[i] in e.numericChanges;
    assert forall i | 0 <= i < |e.changes| :: e.changes[i] in e.changes;
  }

  /** Without a judge: BLOCK exactly if the request is not intact or the evidence grave, ALLOW exactly if it is
      intact and the evidence quiet, and else REVIEW. */
  lemma DecidesExactly(e: Evidence, rules: TextRules, submittedBy: string)
    ensures var decision := Analyze(e, rules, None, submittedBy).submission.policy.decision;
            && (decision == BLOCK <==> !IsIntact(e) || IsGrave(e, rules))
            && (decision == ALLOW <==> IsIntact(e) && IsQuiet(e))
  {
    IntactExactly(e);
    GraveExactly(e, rules);
    StaticScoreMeans(e, rules);
    if HardBlocks(e) { HardBlockIsSevere(e, rules); }
  }

  // ---------------------------------------------------------------- the integrity of a request

  predicate IsHex(value: string) {
    |value| == 64 && forall i | 0 <= i < 64 :: value[i] in "0123456789abcdefABCDEF"
  }

  /** The diff is between the two versions of the request, and all four digests are digests. */
  predicate IsIntact(e: Evidence) {
    && e.request.diff == DiffReport(e.request.baselineSha256, e.request.candidateSha256)
    && IsHex(e.request.baselineSha256) && IsHex(e.request.candidateSha256)
    && IsHex(e.baselineNormalizedSha256) && IsHex(e.candidateNormalizedSha256)
  }

  lemma HexExactly(value: string)
    ensures IsSha256(value) <==> IsHex(value)
  {
    var digits := "0123456789abcdefABCDEF";
    forall c: char ensures c in digits <==> '0' <= c <= '9' || 'a' <= c <= 'f' || 'A' <= c <= 'F' {
      DigitExactly(c);
    }
    assert forall i | 0 <= i < |value| :: value[i] in value;
  }

  lemma DigitExactly(c: char)
    ensures c in "0123456789abcdefABCDEF" <==> '0' <= c <= '9' || 'a' <= c <= 'f' || 'A' <= c <= 'F'
  {
    var digits := "0123456789abcdefABCDEF";
    assert digits[0] == '0' && digits[1] == '1' && digits[2] == '2' && digits[3] == '3' && digits[4] == '4' && digits[5] == '5';
    assert digits[6] == '6' && digits[7] == '7' && digits[8] == '8' && digits[9] == '9';
    assert digits[10] == 'a' && digits[11] == 'b' && digits[12] == 'c' && digits[13] == 'd' && digits[14] == 'e' && digits[15] == 'f';
    assert digits[16] == 'A' && digits[17] == 'B' && digits[18] == 'C' && digits[19] == 'D' && digits[20] == 'E' && digits[21] == 'F';
  }

  lemma IntactExactly(e: Evidence)
    ensures IntegrityIssue(e).None? <==> IsIntact(e)
  {
    HexExactly(e.request.baselineSha256);
    HexExactly(e.request.candidateSha256);
    HexExactly(e.baselineNormalizedSha256);
    HexExactly(e.candidateNormalizedSha256);
  }

  // ---------------------------------------------------------------- the judge

  predicate IsWorthReview(finding: Finding) { finding.severity != LOW }

  /** An opinion that blocks by itself: its own score, or one severe finding. */
  predicate Condemns(assessment: ModelAssessment) {
    assessment.riskScore >= 70 || exists f :: f in assessment.findings && f.severity in {HIGH, CRITICAL}
  }

  /** An opinion that passes: a low score and nothing but low findings. */
  predicate Clears(assessment: ModelAssessment) {
    assessment.riskScore < 30 && forall f | f in assessment.findings :: f.severity == LOW
  }

  lemma {:induction false} HighestMeans(findings: seq<Finding>)
    ensures HighestSeverity(findings) >= 70 <==> exists f :: f in findings && f.severity in {HIGH, CRITICAL}
    ensures HighestSeverity(findings) < 30 <==> forall f | f in findings :: f.severity == LOW
  {
    if findings != [] {
      var before, last := findings[..|findings| - 1], findings[|findings| - 1];
      HighestMeans(before);
      assert findings == before + [last] && last in findings;
      assert forall f | f in findings :: f in before || f == last;
    }
  }

  lemma OpinionMeans(assessment: ModelAssessment)
    ensures AssessmentScore(assessment) >= 70 <==> Condemns(assessment)
    ensures AssessmentScore(assessment) < 30 <==> Clears(assessment)
  {
    HighestMeans(assessment.findings);
  }

  /** What the judge is shown first: the findings as they are reported. */
  function FirstOpinion(e: Evidence, rules: TextRules, judge: Judge): Answer {
    judge.primary(Reported(rules, Assess(e, rules).findings))
  }

  /** With a judge: BLOCK exactly if it would be blocked without, or the first opinion condemns it; ALLOW exactly
      if it would be allowed without, and the first opinion was given and clears it. The second opinion is asked
      for only where the decision is BLOCK already. */
  lemma JudgedExactly(e: Evidence, rules: TextRules, judge: Judge, submittedBy: string)
    ensures var decision, first := Analyze(e, rules, Some(judge), submittedBy).submission.policy.decision,
                                   FirstOpinion(e, rules, judge);
            && (decision == BLOCK <==> !IsIntact(e) || IsGrave(e, rules) || (first.Answered? && Condemns(first.assessment)))
            && (decision == ALLOW <==> IsIntact(e) && IsQuiet(e) && first.Answered? && Clears(first.assessment))
  {
    IntactExactly(e);
    GraveExactly(e, rules);
    StaticScoreMeans(e, rules);
    if HardBlocks(e) { HardBlockIsSevere(e, rules); }
    var first := FirstOpinion(e, rules, judge);
    if first.Answered? { OpinionMeans(first.assessment); }
    ConsultedScore(Assessed(Reported(rules, Assess(e, rules).findings), Assess(e, rules).score), judge, HardBlocks(e));
  }

  lemma ConsultedScore(a: Assessed, judge: Judge, hardBlock: bool)
    ensures var first, score := judge.primary(a.findings), Consult(a, judge, hardBlock).score;
            && (score >= 70 <==> a.score >= 70 || (first.Answered? && AssessmentScore(first.assessment) >= 70))
            && (score < 30 <==> a.score < 30 && (if first.Answered? then AssessmentScore(first.assessment) < 30 else hardBlock))
  {
  }

  // ---------------------------------------------------------------- the score and the report

  /** A request that is not intact is answered without looking at it: blocked, with the highest score, for one
      critical reason, and bound to its candidate. */
  lemma BrokenFailsClosed(e: Evidence, rules: TextRules, judge: Option<Judge>, submittedBy: string)
    requires !IsIntact(e)
    ensures var analysis := Analyze(e, rules, judge, submittedBy);
            && analysis.submission.policy == PolicyResult(FAILED, BLOCK, 100, QUARANTINE, Some(e.request.candidateSha256))
            && analysis.submission.requestId == e.request.requestId && analysis.submission.submittedBy == submittedBy
            && |analysis.findings| == 1 && analysis.findings[0].severity == CRITICAL && analysis.findings[0].source == SYSTEM
  {
    IntactExactly(e);
  }

  /** The severity of a finding as a score. */
  predicate Weighs(finding: Finding, score: int) {
    && (finding.severity == LOW ==> score == 20) && (finding.severity == MEDIUM ==> score == 50)
    && (finding.severity == HIGH ==> score == 80) && (finding.severity == CRITICAL ==> score == 100)
  }

  /** The largest of an opinion's own score and the weights of its findings. */
  ghost predicate IsScoreOf(score: int, assessment: ModelAssessment) {
    && score >= assessment.riskScore && (forall f, s | f in assessment.findings && Weighs(f, s) :: s <= score)
    && (score == assessment.riskScore || score == 0 || exists f :: f in assessment.findings && Weighs(f, score))
    && score >= 0
  }

  lemma {:induction false} HighestIsLargest(findings: seq<Finding>)
    ensures forall f, s | f in findings && Weighs(f, s) :: s <= HighestSeverity(findings)
    ensures HighestSeverity(findings) == 0 || exists f :: f in findings && Weighs(f, HighestSeverity(findings))
    ensures HighestSeverity(findings) >= 0
  {
    if findings != [] {
      var before, last := findings[..|findings| - 1], findings[|findings| - 1];
      HighestIsLargest(before);
      assert findings == before + [last] && last in findings;
      assert forall f | f in findings :: f in before || f == last;
      assert Weighs(last, SeverityScore(last.severity));
    }
  }

  lemma OpinionScore(assessment: ModelAssessment)
    ensures IsScoreOf(AssessmentScore(assessment), assessment)
  {
    HighestIsLargest(assessment.findings);
  }

  function Max(a: int, b: int): int { if a > b then a else b }

  /** The findings of an opinion, each marked as its own. */
  function MarkedAs(findings: seq<Finding>, source: Source): seq<Finding> {
    seq(|findings|, i requires 0 <= i < |findings| => findings[i].(source := source))
  }

  lemma {:induction false} TaggedExactly(findings: seq<Finding>, source: Source)
    ensures Tagged(findings, source) == MarkedAs(findings, source)
  {
    if findings != [] { TaggedExactly(findings[..|findings| - 1], source); }
  }

  const UNAVAILABLE := Finding(AnalysisUnavailable, None, None, MEDIUM, SYSTEM)

  /** The judge is heard in full: the first opinion on what was found, and a second one on that as well if the
      score blocks by then. Each adds its findings, marked as its own, and raises the score to its own; an error
      adds that no opinion was to be had, and raises it to 50 unless an artifact blocks anyway. */
  ghost predicate IsHeard(a: Assessed, judge: Judge, hardBlock: bool, heard: Assessed) {
    match judge.primary(a.findings)
    case Raised => heard == Assessed(a.findings + [UNAVAILABLE], if hardBlock then a.score else Max(a.score, 50))
    case Answered(first) =>
      exists score: int :: IsScoreOf(score, first) && IsSecondHeard(
        Assessed(a.findings + MarkedAs(first.findings, LLM_PRIMARY), Max(a.score, score)), judge, hardBlock, heard)
  }

  ghost predicate IsSecondHeard(a: Assessed, judge: Judge, hardBlock: bool, heard: Assessed) {
    if a.score < 70 then heard == a
    else match judge.audit(a.findings)
      case Raised => heard == Assessed(a.findings + [UNAVAILABLE], if hardBlock then a.score else Max(a.score, 50))
      case Answered(second) =>
        exists score: int :: IsScoreOf(score, second)
          && heard == Assessed(a.findings + MarkedAs(second.findings, LLM_AUDIT), Max(a.score, score))
  }

  lemma HeardExactly(a: Assessed, judge: Judge, hardBlock: bool)
    ensures IsHeard(a, judge, hardBlock, Consult(a, judge, hardBlock))
  {
    var answer := judge.primary(a.findings);
    if answer.Answered? {
      var first := answer.assessment;
      TaggedExactly(first.findings, LLM_PRIMARY);
      OpinionScore(first);
      var a1 := Heard(a, first, LLM_PRIMARY);
      SecondHeardExactly(a1, judge, hardBlock, Consult(a, judge, hardBlock));
      assert IsScoreOf(AssessmentScore(first), first);
    }
  }

  lemma SecondHeardExactly(a: Assessed, judge: Judge, hardBlock: bool, heard: Assessed)
    requires heard == if a.score < 70 then a
                      else match judge.audit(a.findings)
                        case Raised => Unavailable(a, hardBlock)
                        case Answered(audit) => Heard(a, audit, LLM_AUDIT)
    ensures IsSecondHeard(a, judge, hardBlock, heard)
  {
    if a.score >= 70 {
      var answer := judge.audit(a.findings);
      if answer.Answered? {
        TaggedExactly(answer.assessment.findings, LLM_AUDIT);
        OpinionScore(answer.assessment);
      }
    }
  }

  /** What is answered to an intact request: the score heard last, or 100 if an artifact blocks, within 0..100; and
      the first hundred different findings. */
  lemma ReportsHeard(e: Evidence, rules: TextRules, judge: Judge, submittedBy: string) returns (heard: Assessed)
    requires IsIntact(e)
    ensures var assessed := Assess(e, rules);
            IsHeard(Assessed(Reported(rules, assessed.findings), assessed.score), judge, HardBlocks(e), heard)
    ensures var analysis := Analyze(e, rules, Some(judge), submittedBy);
            && analysis.submission.policy.riskScore
               == (if exists note :: note in e.artifacts && note.kind in Gate.HARD_BLOCK_ARTIFACT_TYPES then 100
                   else if heard.score > 100 then 100 else heard.score)
            && analysis.findings == Reported(rules, heard.findings)
  {
    var start := Assessed(Reported(rules, Assess(e, rules).findings), Assess(e, rules).score);
    IntactExactly(e);
    StaticScoreMeans(e, rules);
    heard := Consult(start, judge, HardBlocks(e));
    HeardExactly(start, judge, HardBlocks(e));
    ConsultingRaises(start, judge, HardBlocks(e));
  }
}
