/** The risk service (`risk_engine.py`): static evidence gives a score, a judge can only raise it, and
    only a document without any changed, hidden or embedded content is allowed. */
module RiskEngine {
  import opened Wrappers
  import opened Contracts
  import Gate

  datatype Severity = LOW | MEDIUM | HIGH | CRITICAL

  datatype Source = STATIC | LLM_PRIMARY | LLM_AUDIT | SYSTEM

  datatype Issue = DiffBaselineMismatch | DiffCandidateMismatch | MalformedDigest(digest: string)

  /** The type of a finding, with its reason where that is not fixed by the type. */
  datatype Cause =
    | ArtifactFound(kind: string, reason: string)
    | HiddenText
    | PolicyNumberChange
    | NumberChange
    | PolicyDateChange
    | PromptInjection(isHidden: bool)
    | PolicySemanticChange
    | DocumentContentChange
    | AnalysisUnavailable
    | RequestIntegrityMismatch(issue: Issue)
    | Judged(kind: string, reason: string)

  datatype Finding = Finding(cause: Cause, before: Option<string>, after: Option<string>, severity: Severity, source: Source)

  datatype Change = Change(before: Option<string>, after: Option<string>)

  datatype NumericChange = NumericChange(before: seq<string>, after: seq<string>, changeIndex: int)

  /** An artifact of the candidate; `kind` is its type in upper case. */
  datatype ArtifactNote = ArtifactNote(kind: string, reason: string)

  datatype Unit = Unit(text: string, isHidden: bool)

  datatype Evidence = Evidence(
    request: RiskRequest, baselineNormalizedSha256: string, candidateNormalizedSha256: string,
    changes: seq<Change>, numericChanges: seq<NumericChange>, artifacts: seq<ArtifactNote>, units: seq<Unit>)

  /** The text patterns: policy terms, injected instructions, dates, and how a set of dates is listed; and the
      wording of findings, by which alike ones are told. */
  datatype TextRules = TextRules(
    isPolicy: string -> bool, isInjection: string -> bool, dates: string -> set<string>, listing: set<string> -> string,
    typeOf: Cause -> string, reasonOf: Cause -> string)

  // ---------------------------------------------------------------- texts

  function TextOf(part: Option<string>): string { if part.Some? then part.value else "" }

  /** Both sides of a change with a space between them, if both are there. */
  function Combined(change: Change): string {
    var before, after := TextOf(change.before), TextOf(change.after);
    if before != "" && after != "" then before + " " + after else before + after
  }

  function Adjoined(change: Change): string { TextOf(change.before) + TextOf(change.after) }

  function Truncate(text: string): string {
    if |text| <= 500 then text else text[..500] + "…"
  }

  function TruncatePart(part: Option<string>): Option<string> {
    if part.None? then None else Some(Truncate(part.value))
  }

  function Join(separator: string, parts: seq<string>): string {
    if parts == [] then "" else if |parts| == 1 then parts[0] else parts[0] + separator + Join(separator, parts[1..])
  }

  function OrNone(text: string): Option<string> { if text == "" then None else Some(text) }

  function HiddenUnits(units: seq<Unit>): seq<Unit> {
    if units == [] then []
    else HiddenUnits(units[..|units| - 1]) + if units[|units| - 1].isHidden then [units[|units| - 1]] else []
  }

  function Texts(units: seq<Unit>): seq<string> {
    seq(|units|, i requires 0 <= i < |units| => units[i].text)
  }

  // ---------------------------------------------------------------- static assessment

  /** The findings so far and the highest score among them. */
  datatype Assessed = Assessed(findings: seq<Finding>, score: int)

  const NO_FINDINGS := Assessed([], 0)

  const MAX_FINDINGS := 100

  function Scored(a: Assessed, score: int, findings: seq<Finding>): Assessed {
    Assessed(a.findings + findings, if score > a.score then score else a.score)
  }

  function Static(cause: Cause, before: Option<string>, after: Option<string>, severity: Severity): Finding {
    Finding(cause, before, after, severity, STATIC)
  }

  predicate IsHardBlock(note: ArtifactNote) { note.kind in Gate.HARD_BLOCK_ARTIFACT_TYPES }

  function ArtifactSeverity(note: ArtifactNote): Severity {
    if IsHardBlock(note) then CRITICAL
    else if note.kind in {"HIDDEN_TEXT", "CONTROL_CHARACTERS"} then HIGH
    else MEDIUM
  }

  function ArtifactScore(note: ArtifactNote): (score: int)
    ensures 30 <= score <= 100 && (score >= 70 <==> ArtifactSeverity(note) in {HIGH, CRITICAL})
    ensures score == 100 <==> IsHardBlock(note)
  {
    if IsHardBlock(note) then 100
    else if note.kind in {"HIDDEN_TEXT", "CONTROL_CHARACTERS"} then 80
    else if note.kind in {"TRACKED_CHANGES", "EXTERNAL_REFERENCE"} then 45
    else 30
  }

  /** Hidden text noted by an extractor is left to the finding about the hidden units, if there are any. */
  predicate IsLeftToHidden(note: ArtifactNote, anyHidden: bool) {
    anyHidden && note.kind == "HIDDEN_TEXT" && !IsHardBlock(note)
  }

  function WithArtifact(a: Assessed, note: ArtifactNote, anyHidden: bool): Assessed {
    Scored(a, ArtifactScore(note),
           if IsLeftToHidden(note, anyHidden) then []
           else [Static(ArtifactFound(note.kind, note.reason), None, None, ArtifactSeverity(note))])
  }

  function WithHidden(a: Assessed, hidden: seq<Unit>): Assessed {
    if hidden == [] then a
    else
      var shown := if |hidden| > 5 then hidden[..5] else hidden;
      Scored(a, 80, [Static(HiddenText, None, Some(Truncate(Join("\n", Texts(shown)))), HIGH)])
  }

  predicate InPolicy(numeric: NumericChange, changes: seq<Change>, rules: TextRules) {
    rules.isPolicy(if 0 <= numeric.changeIndex < |changes| then Combined(changes[numeric.changeIndex]) else "")
  }

  function WithNumber(a: Assessed, numeric: NumericChange, changes: seq<Change>, rules: TextRules): Assessed {
    var before, after := OrNone(Join(" · ", numeric.before)), OrNone(Join(" · ", numeric.after));
    if InPolicy(numeric, changes, rules) then Scored(a, 75, [Static(PolicyNumberChange, before, after, HIGH)])
    else Scored(a, 55, [Static(NumberChange, before, after, MEDIUM)])
  }

  predicate ChangesDates(change: Change, rules: TextRules) {
    rules.dates(TextOf(change.before)) != rules.dates(TextOf(change.after))
  }

  function Listed(dates: set<string>, rules: TextRules): Option<string> {
    if dates == {} then None else Some(rules.listing(dates))
  }

  function WithDates(a: Assessed, change: Change, rules: TextRules): Assessed {
    var isPolicy := rules.isPolicy(Adjoined(change));
    if !ChangesDates(change, rules) then a
    else
      Scored(a, if isPolicy then 70 else 50,
             [Static(PolicyDateChange, Listed(rules.dates(TextOf(change.before)), rules),
                     Listed(rules.dates(TextOf(change.after)), rules), if isPolicy then HIGH else MEDIUM)])
  }

  /** The texts searched for instructions: what changes bring in, then what is hidden. */
  function PromptCandidates(changes: seq<Change>, hidden: seq<Unit>): seq<Unit> {
    Incoming(changes) + hidden
  }

  function Incoming(changes: seq<Change>): seq<Unit> {
    if changes == [] then []
    else
      var text := TextOf(changes[|changes| - 1].after);
      Incoming(changes[..|changes| - 1]) + if text != "" then [Unit(text, false)] else []
  }

  function WithPrompt(a: Assessed, unit: Unit, rules: TextRules): Assessed {
    if !rules.isInjection(unit.text) then a
    else if unit.isHidden then Scored(a, 95, [Static(PromptInjection(true), None, Some(Truncate(unit.text)), CRITICAL)])
    else Scored(a, 85, [Static(PromptInjection(false), None, Some(Truncate(unit.text)), HIGH)])
  }

  predicate IsAbout(finding: Finding, change: Change) {
    (finding.before.Some? || finding.after.Some?) && (finding.before == change.before || finding.after == change.after)
  }

  predicate HasFinding(findings: seq<Finding>, change: Change) {
    exists finding :: finding in findings && IsAbout(finding, change)
  }

  /** The change was classified by its numbers or its dates. */
  predicate IsClassified(e: Evidence, rules: TextRules, i: nat)
    requires i < |e.changes|
  {
    ChangesDates(e.changes[i], rules) || i in Indices(e.numericChanges)
  }

  function Indices(numericChanges: seq<NumericChange>): set<int> {
    set numeric | numeric in numericChanges :: numeric.changeIndex
  }

  function WithMeaning(a: Assessed, change: Change, classified: bool, rules: TextRules): Assessed {
    if classified || !rules.isPolicy(Combined(change)) || HasFinding(a.findings, change) then a
    else Scored(a, 50, [Static(PolicySemanticChange, TruncatePart(change.before), TruncatePart(change.after), MEDIUM)])
  }

  function WithContent(a: Assessed, changes: seq<Change>): Assessed {
    if changes != [] && a.findings == [] then Scored(a, 35, [Static(DocumentContentChange, None, None, MEDIUM)]) else a
  }

  function Artifacts(e: Evidence, n: nat): Assessed
    requires n <= |e.artifacts|
  {
    if n == 0 then NO_FINDINGS else WithArtifact(Artifacts(e, n - 1), e.artifacts[n - 1], HiddenUnits(e.units) != [])
  }

  function Numbers(e: Evidence, rules: TextRules, a: Assessed, n: nat): Assessed
    requires n <= |e.numericChanges|
  {
    if n == 0 then a else WithNumber(Numbers(e, rules, a, n - 1), e.numericChanges[n - 1], e.changes, rules)
  }

  function Dates(e: Evidence, rules: TextRules, a: Assessed, n: nat): Assessed
    requires n <= |e.changes|
  {
    if n == 0 then a else WithDates(Dates(e, rules, a, n - 1), e.changes[n - 1], rules)
  }

  function Prompts(units: seq<Unit>, rules: TextRules, a: Assessed, n: nat): Assessed
    requires n <= |units|
  {
    if n == 0 then a else WithPrompt(Prompts(units, rules, a, n - 1), units[n - 1], rules)
  }

  function Meanings(e: Evidence, rules: TextRules, a: Assessed, n: nat): Assessed
    requires n <= |e.changes|
  {
    if n == 0 then a else WithMeaning(Meanings(e, rules, a, n - 1), e.changes[n - 1], IsClassified(e, rules, n - 1), rules)
  }

  /** The five rounds over the evidence. */
  function Assess(e: Evidence, rules: TextRules): Assessed {
    var hidden := HiddenUnits(e.units);
    var units := PromptCandidates(e.changes, hidden);
    var a1 := WithHidden(Artifacts(e, |e.artifacts|), hidden);
    var a2 := Dates(e, rules, Numbers(e, rules, a1, |e.numericChanges|), |e.changes|);
    var a3 := Prompts(units, rules, a2, |units|);
    WithContent(Meanings(e, rules, a3, |e.changes|), e.changes)
  }

  function HardBlocks(e: Evidence): bool {
    exists note :: note in e.artifacts && IsHardBlock(note)
  }

  // ---------------------------------------------------------------- reported findings

  predicate SameKey(rules: TextRules, a: Finding, b: Finding) {
    && rules.typeOf(a.cause) == rules.typeOf(b.cause) && rules.reasonOf(a.cause) == rules.reasonOf(b.cause)
    && a.before == b.before && a.after == b.after
  }

  /** The first finding of each key, in order. */
  function Deduplicate(rules: TextRules, findings: seq<Finding>): seq<Finding> {
    if findings == [] then []
    else
      var before, last := Deduplicate(rules, findings[..|findings| - 1]), findings[|findings| - 1];
      if IsKnown(rules, before, last) then before else before + [last]
  }

  predicate IsKnown(rules: TextRules, findings: seq<Finding>, finding: Finding) {
    exists f :: f in findings && SameKey(rules, f, finding)
  }

  function Reported(rules: TextRules, findings: seq<Finding>): seq<Finding> {
    var distinct := Deduplicate(rules, findings);
    if |distinct| > MAX_FINDINGS then distinct[..MAX_FINDINGS] else distinct
  }

  // ---------------------------------------------------------------- the judge and the decision

  datatype ModelAssessment = ModelAssessment(riskScore: int, findings: seq<Finding>) {
    predicate Valid() { 0 <= riskScore <= 100 }
  }

  /** What the judge does when asked: it answers, or it raises an error that is caught. */
  datatype Answer = Answered(assessment: ModelAssessment) | Raised

  /** The judge in its two phases, each seeing the findings so far. */
  datatype Judge = Judge(primary: seq<Finding> -> Answer, audit: seq<Finding> -> Answer)

  function SeverityScore(severity: Severity): int {
    match severity case LOW => 20 case MEDIUM => 50 case HIGH => 80 case CRITICAL => 100
  }

  function HighestSeverity(findings: seq<Finding>): int {
    if findings == [] then 0
    else
      var before, last := HighestSeverity(findings[..|findings| - 1]), SeverityScore(findings[|findings| - 1].severity);
      if last > before then last else before
  }

  function Larger(a: int, b: int): int { if a < b then b else a }

  function AssessmentScore(assessment: ModelAssessment): int {
    Larger(assessment.riskScore, HighestSeverity(assessment.findings))
  }

  function Tagged(findings: seq<Finding>, source: Source): seq<Finding> {
    if findings == [] then []
    else Tagged(findings[..|findings| - 1], source) + [findings[|findings| - 1].(source := source)]
  }

  function Heard(a: Assessed, assessment: ModelAssessment, source: Source): Assessed {
    Assessed(a.findings + Tagged(assessment.findings, source), Larger(a.score, AssessmentScore(assessment)))
  }

  function Unavailable(a: Assessed, hardBlock: bool): Assessed {
    Assessed(a.findings + [Finding(AnalysisUnavailable, None, None, MEDIUM, SYSTEM)],
             if hardBlock then a.score else Larger(a.score, 50))
  }

  /** Asking the judge: a primary opinion, and a second one if that is already a block. */
  function Consult(a: Assessed, judge: Judge, hardBlock: bool): Assessed {
    match judge.primary(a.findings)
    case Raised => Unavailable(a, hardBlock)
    case Answered(primary) =>
      var a1 := Heard(a, primary, LLM_PRIMARY);
      if a1.score < 70 then a1
      else
        match judge.audit(a1.findings)
        case Raised => Unavailable(a1, hardBlock)
        case Answered(audit) => Heard(a1, audit, LLM_AUDIT)
  }

  function DecisionForScore(score: int): (Decision, IndexAction) {
    if score >= 70 then (BLOCK, QUARANTINE) else if score >= 30 then (REVIEW, HOLD) else (ALLOW, INDEX)
  }

  predicate IsSha256(value: string) {
    |value| == 64 && forall c | c in value :: '0' <= c <= '9' || 'a' <= c <= 'f' || 'A' <= c <= 'F'
  }

  function IntegrityIssue(e: Evidence): Option<Issue> {
    if e.request.diff.baselineSha256 != e.request.baselineSha256 then Some(DiffBaselineMismatch)
    else if e.request.diff.candidateSha256 != e.request.candidateSha256 then Some(DiffCandidateMismatch)
    else if !IsSha256(e.request.baselineSha256) then Some(MalformedDigest("baseline"))
    else if !IsSha256(e.request.candidateSha256) then Some(MalformedDigest("candidate"))
    else if !IsSha256(e.baselineNormalizedSha256) then Some(MalformedDigest("baseline normalized"))
    else if !IsSha256(e.candidateNormalizedSha256) then Some(MalformedDigest("candidate normalized"))
    else None
  }

  datatype Analysis = Analysis(submission: PolicySubmission, findings: seq<Finding>)

  function FailClosed(e: Evidence, submittedBy: string, issue: Issue): Analysis {
    Analysis(
      PolicySubmission(e.request.requestId, submittedBy,
                       PolicyResult(FAILED, BLOCK, 100, QUARANTINE, Some(e.request.candidateSha256))),
      [Finding(RequestIntegrityMismatch(issue), None, None, CRITICAL, SYSTEM)])
  }

  function Clamp(score: int): int { if score < 0 then 0 else if score > 100 then 100 else score }

  /** `analyze`. */
  function Analyze(e: Evidence, rules: TextRules, judge: Option<Judge>, submittedBy: string): Analysis {
    var issue := IntegrityIssue(e);
    if issue.Some? then FailClosed(e, submittedBy, issue.value)
    else
      var assessed := Assess(e, rules);
      var start := Assessed(Reported(rules, assessed.findings), assessed.score);
      var heard := if judge.None? then start else Consult(start, judge.value, HardBlocks(e));
      var score := if HardBlocks(e) then 100 else Clamp(heard.score);
      var (decision, action) := DecisionForScore(score);
      Analysis(
        PolicySubmission(e.request.requestId, submittedBy,
                         PolicyResult(COMPLETED, decision, score, action, Some(e.request.candidateSha256))),
        Reported(rules, heard.findings))
  }
}
