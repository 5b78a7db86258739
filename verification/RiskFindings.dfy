/** What the static assessment finds: which findings, for which evidence, and with what score. */
module RiskFindings {
  import opened Wrappers
  import opened Contracts
  import opened RiskEngine
  import opened RiskDecisions
  import Gate

  // ---------------------------------------------------------------- the texts shown

  /** A text is shown whole if it has at most 500 characters; of a longer one the first 500, and a mark. */
  lemma ShownExactly(text: string)
    ensures |text| <= 500 ==> Truncate(text) == text
    ensures |text| > 500 ==> |Truncate(text)| == 501 && Truncate(text)[..500] == text[..500] && Truncate(text)[500] == '…'
  {
  }

  predicate IsThere(part: Option<string>) { part.Some? && part.value != "" }

  /** What is read of a change: both sides with one space between them, or the only side that is there, or nothing. */
  lemma CombinedExactly(change: Change)
    ensures IsThere(change.before) && IsThere(change.after) ==>
              var b, a, text := change.before.value, change.after.value, Combined(change);
              |text| == |b| + 1 + |a| && text[..|b|] == b && text[|b|] == ' ' && text[|b| + 1..] == a
    ensures !IsThere(change.before) && IsThere(change.after) ==> Combined(change) == change.after.value
    ensures IsThere(change.before) && !IsThere(change.after) ==> Combined(change) == change.before.value
    ensures !IsThere(change.before) && !IsThere(change.after) ==> Combined(change) == ""
  {
  }

  /** Parts are joined in their order, with a separator between every two and none at the ends. */
  lemma {:induction false} JoinedExactly(separator: string, parts: seq<string>, part: string)
    ensures Join(separator, []) == ""
    ensures Join(separator, parts + [part]) == if parts == [] then part else Join(separator, parts) + separator + part
  {
    if parts == [] {
      assert parts + [part] == [part];
    } else {
      JoinedExactly(separator, parts[1..], part);
      assert (parts + [part])[1..] == parts[1..] + [part];
      assert Join(separator, parts + [part]) == parts[0] + separator + Join(separator, parts[1..] + [part]);
    }
  }

  /** A number belongs to a policy by the change it is in; one that is in none is judged by no text at all. */
  lemma PolicyNumberExactly(numeric: NumericChange, changes: seq<Change>, rules: TextRules)
    ensures 0 <= numeric.changeIndex < |changes| ==>
              (InPolicy(numeric, changes, rules) <==> rules.isPolicy(Combined(changes[numeric.changeIndex])))
    ensures numeric.changeIndex < 0 || numeric.changeIndex >= |changes| ==> (InPolicy(numeric, changes, rules) <==> rules.isPolicy(""))
  {
  }

  /** `n` is five, or the number of hidden units if there are fewer. */
  predicate IsShown(hidden: seq<Unit>, n: nat) {
    n <= |hidden| && n <= 5 && (n == |hidden| || n == 5)
  }

  // ---------------------------------------------------------------- findings for evidence

  function SeverityOf(kind: string): Severity {
    if kind in Gate.HARD_BLOCK_ARTIFACT_TYPES then CRITICAL
    else if kind == "HIDDEN_TEXT" || kind == "CONTROL_CHARACTERS" then HIGH
    else MEDIUM
  }

  /** The artifact is reported; one of hidden text is left to the hidden text itself, if some was found. */
  predicate TellsArtifact(f: Finding, note: ArtifactNote, anyHidden: bool) {
    && f == Finding(ArtifactFound(note.kind, note.reason), None, None, SeverityOf(note.kind), STATIC)
    && (note.kind == "HIDDEN_TEXT" && note.kind !in Gate.HARD_BLOCK_ARTIFACT_TYPES ==> !anyHidden)
  }

  predicate TellsHidden(f: Finding, hidden: seq<Unit>, n: nat) {
    && hidden != [] && IsShown(hidden, n)
    && f == Finding(HiddenText, None, Some(Truncate(Join("\n", Texts(hidden[..n])))), HIGH, STATIC)
  }

  predicate TellsNumber(f: Finding, numeric: NumericChange, changes: seq<Change>, rules: TextRules) {
    var policy := InPolicy(numeric, changes, rules);
    && f.cause == (if policy then PolicyNumberChange else NumberChange) && f.severity == (if policy then HIGH else MEDIUM)
    && f.before == OrNone(Join(" · ", numeric.before)) && f.after == OrNone(Join(" · ", numeric.after)) && f.source == STATIC
  }

  predicate TellsDates(f: Finding, change: Change, rules: TextRules) {
    var before, after := rules.dates(TextOf(change.before)), rules.dates(TextOf(change.after));
    && before != after && f.cause == PolicyDateChange && f.source == STATIC
    && f.severity == (if ChangesPolicyDates(change, rules) then HIGH else MEDIUM)
    && f.before == Listed(before, rules) && f.after == Listed(after, rules)
  }

  predicate TellsInstruction(f: Finding, unit: Unit, rules: TextRules) {
    && rules.isInjection(unit.text)
    && f == Finding(PromptInjection(unit.isHidden), None, Some(Truncate(unit.text)), if unit.isHidden then CRITICAL else HIGH, STATIC)
  }

  /** The findings of the first four rounds, and no others. */
  ghost predicate IsTold(f: Finding, e: Evidence, rules: TextRules) {
    var hidden := HiddenUnits(e.units);
    || (exists note :: note in e.artifacts && TellsArtifact(f, note, hidden != []))
    || (exists n: nat :: TellsHidden(f, hidden, n))
    || (exists numeric :: numeric in e.numericChanges && TellsNumber(f, numeric, e.changes, rules))
    || (exists change :: change in e.changes && TellsDates(f, change, rules))
    || (exists unit :: unit in PromptCandidates(e.changes, hidden) && TellsInstruction(f, unit, rules))
  }

  lemma OneArtifactTells(a: Assessed, note: ArtifactNote, anyHidden: bool, f: Finding)
    ensures f in WithArtifact(a, note, anyHidden).findings <==> f in a.findings || TellsArtifact(f, note, anyHidden)
  {
  }

  lemma {:induction false} ArtifactsTell(e: Evidence, n: nat, f: Finding)
    requires n <= |e.artifacts|
    ensures f in Artifacts(e, n).findings <==>
              exists i :: 0 <= i < n && TellsArtifact(f, e.artifacts[i], HiddenUnits(e.units) != [])
  {
    if n > 0 {
      ArtifactsTell(e, n - 1, f);
      OneArtifactTells(Artifacts(e, n - 1), e.artifacts[n - 1], HiddenUnits(e.units) != [], f);
    }
  }

  lemma {:induction false} NumbersTell(e: Evidence, rules: TextRules, a: Assessed, n: nat, f: Finding)
    requires n <= |e.numericChanges|
    ensures f in Numbers(e, rules, a, n).findings <==>
              f in a.findings || exists i :: 0 <= i < n && TellsNumber(f, e.numericChanges[i], e.changes, rules)
  {
    if n > 0 { NumbersTell(e, rules, a, n - 1, f); }
  }

  lemma {:induction false} DatesTell(e: Evidence, rules: TextRules, a: Assessed, n: nat, f: Finding)
    requires n <= |e.changes|
    ensures f in Dates(e, rules, a, n).findings <==> f in a.findings || exists i :: 0 <= i < n && TellsDates(f, e.changes[i], rules)
  {
    if n > 0 { DatesTell(e, rules, a, n - 1, f); }
  }

  lemma {:induction false} PromptsTell(units: seq<Unit>, rules: TextRules, a: Assessed, n: nat, f: Finding)
    requires n <= |units|
    ensures f in Prompts(units, rules, a, n).findings <==>
              f in a.findings || exists i :: 0 <= i < n && TellsInstruction(f, units[i], rules)
  {
    if n > 0 { PromptsTell(units, rules, a, n - 1, f); }
  }

  lemma HiddenTells(a: Assessed, hidden: seq<Unit>, f: Finding)
    ensures f in WithHidden(a, hidden).findings <==> f in a.findings || exists n: nat :: TellsHidden(f, hidden, n)
  {
    var k := if |hidden| > 5 then 5 else |hidden|;
    assert hidden[..k] == if |hidden| > 5 then hidden[..5] else hidden;
    if hidden != [] {
      var told := Finding(HiddenText, None, Some(Truncate(Join("\n", Texts(hidden[..k])))), HIGH, STATIC);
      assert TellsHidden(told, hidden, k);
      assert WithHidden(a, hidden).findings == a.findings + [told];
      assert forall n: nat | IsShown(hidden, n) :: n == k;
    }
  }

  /** The assessment after its first four rounds. */
  function Told(e: Evidence, rules: TextRules): Assessed {
    var hidden := HiddenUnits(e.units);
    var units := PromptCandidates(e.changes, hidden);
    var a1 := WithHidden(Artifacts(e, |e.artifacts|), hidden);
    var a2 := Dates(e, rules, Numbers(e, rules, a1, |e.numericChanges|), |e.changes|);
    Prompts(units, rules, a2, |units|)
  }

  /** The first four rounds find exactly what the evidence tells. */
  lemma ToldExactly(e: Evidence, rules: TextRules, f: Finding)
    ensures f in Told(e, rules).findings <==> IsTold(f, e, rules)
  {
    var hidden := HiddenUnits(e.units);
    var units := PromptCandidates(e.changes, hidden);
    var a0 := Artifacts(e, |e.artifacts|);
    var a1 := WithHidden(a0, hidden);
    var a2 := Numbers(e, rules, a1, |e.numericChanges|);
    var a3 := Dates(e, rules, a2, |e.changes|);
    ArtifactsTell(e, |e.artifacts|, f);
    HiddenTells(a0, hidden, f);
    NumbersTell(e, rules, a1, |e.numericChanges|, f);
    DatesTell(e, rules, a2, |e.changes|, f);
    PromptsTell(units, rules, a3, |units|, f);
    Places(e, units);
  }

  lemma Places(e: Evidence, units: seq<Unit>)
    ensures forall i | 0 <= i < |e.artifacts| :: e.artifacts[i] in e.artifacts
    ensures forall i | 0 <= i < |e.numericChanges| :: e.numericChanges[i] in e.numericChanges
    ensures forall i | 0 <= i < |e.changes| :: e.changes[i] in e.changes
    ensures forall i | 0 <= i < |units| :: units[i] in units
  {
  }

  // ---------------------------------------------------------------- the last two rounds

  /** Some finding so far shows one side of the change. */
  predicate IsToldOf(findings: seq<Finding>, change: Change) {
    exists i :: 0 <= i < |findings| && (findings[i].before.Some? || findings[i].after.Some?)
                && (findings[i].before == change.before || findings[i].after == change.after)
  }

  /** No number of the change was found to have changed, and no date. */
  predicate IsUnclassified(e: Evidence, rules: TextRules, i: nat)
    requires i < |e.changes|
  {
    && rules.dates(TextOf(e.changes[i].before)) == rules.dates(TextOf(e.changes[i].after))
    && forall k | 0 <= k < |e.numericChanges| :: e.numericChanges[k].changeIndex != i
  }

  lemma ClassifiedExactly(e: Evidence, rules: TextRules, i: nat)
    requires i < |e.changes|
    ensures IsClassified(e, rules, i) <==> !IsUnclassified(e, rules, i)
  {
    if i in Indices(e.numericChanges) {
      var numeric :| numeric in e.numericChanges && numeric.changeIndex == i;
      var k :| 0 <= k < |e.numericChanges| && e.numericChanges[k] == numeric;
    }
    assert forall k | 0 <= k < |e.numericChanges| :: e.numericChanges[k] in e.numericChanges;
  }

  lemma FoundExactly(findings: seq<Finding>, change: Change)
    ensures HasFinding(findings, change) <==> IsToldOf(findings, change)
  {
    if HasFinding(findings, change) {
      var f :| f in findings && IsAbout(f, change);
      var i :| 0 <= i < |findings| && findings[i] == f;
    }
    assert forall i | 0 <= i < |findings| :: findings[i] in findings;
  }

  /** A change is found to bear on policy exactly if it speaks of policy, was not classified, and no finding before
      it shows one of its sides; and then it scores 50. */
  lemma MeaningExactly(e: Evidence, rules: TextRules, a: Assessed, n: nat)
    requires n < |e.changes|
    ensures var before, after, change := Meanings(e, rules, a, n), Meanings(e, rules, a, n + 1), e.changes[n];
            if IsUnclassified(e, rules, n) && rules.isPolicy(Combined(change)) && !IsToldOf(before.findings, change)
            then after == Assessed(
                   before.findings + [Finding(PolicySemanticChange, TruncatePart(change.before), TruncatePart(change.after), MEDIUM, STATIC)],
                   Max(before.score, 50))
            else after == before
  {
    ClassifiedExactly(e, rules, n);
    FoundExactly(Meanings(e, rules, a, n).findings, e.changes[n]);
  }

  /** Only a document that changed and about which nothing else was found is reported as changed, with 35. */
  lemma ContentExactly(e: Evidence, rules: TextRules)
    ensures var before := Meanings(e, rules, Told(e, rules), |e.changes|);
            Assess(e, rules) == if e.changes != [] && before.findings == []
                                then Assessed([Finding(DocumentContentChange, None, None, MEDIUM, STATIC)], Max(before.score, 35))
                                else before
  {
  }

  // ---------------------------------------------------------------- the score

  /** What each piece of evidence scores. */
  predicate ArtifactWeighs(note: ArtifactNote, score: int) {
    score == if note.kind in Gate.HARD_BLOCK_ARTIFACT_TYPES then 100
             else if note.kind == "HIDDEN_TEXT" || note.kind == "CONTROL_CHARACTERS" then 80
             else if note.kind == "TRACKED_CHANGES" || note.kind == "EXTERNAL_REFERENCE" then 45
             else 30
  }

  predicate NumberWeighs(numeric: NumericChange, e: Evidence, rules: TextRules, score: int) {
    score == if InPolicy(numeric, e.changes, rules) then 75 else 55
  }

  predicate DatesWeigh(change: Change, rules: TextRules, score: int) {
    && rules.dates(TextOf(change.before)) != rules.dates(TextOf(change.after))
    && score == if ChangesPolicyDates(change, rules) then 70 else 50
  }

  predicate InstructionWeighs(unit: Unit, rules: TextRules, score: int) {
    rules.isInjection(unit.text) && score == if unit.isHidden then 95 else 85
  }

  /** Some piece of evidence has this score. */
  ghost predicate HasWeight(e: Evidence, rules: TextRules, score: int) {
    var hidden := HiddenUnits(e.units);
    || (exists i :: 0 <= i < |e.artifacts| && ArtifactWeighs(e.artifacts[i], score))
    || (hidden != [] && score == 80)
    || (exists i :: 0 <= i < |e.numericChanges| && NumberWeighs(e.numericChanges[i], e, rules, score))
    || (exists i :: 0 <= i < |e.changes| && DatesWeigh(e.changes[i], rules, score))
    || (exists unit :: unit in PromptCandidates(e.changes, hidden) && InstructionWeighs(unit, rules, score))
  }

  lemma {:induction false} ArtifactsWeigh(e: Evidence, n: nat)
    requires n <= |e.artifacts|
    ensures var score := Artifacts(e, n).score;
            && (score == 0 || exists i :: 0 <= i < n && ArtifactWeighs(e.artifacts[i], score))
            && forall i, s | 0 <= i < n && ArtifactWeighs(e.artifacts[i], s) :: s <= score
    ensures Artifacts(e, n).score >= 0
  {
    if n > 0 {
      ArtifactsWeigh(e, n - 1);
      assert ArtifactWeighs(e.artifacts[n - 1], ArtifactScore(e.artifacts[n - 1]));
    }
  }

  lemma {:induction false} NumbersWeigh(e: Evidence, rules: TextRules, a: Assessed, n: nat)
    requires n <= |e.numericChanges|
    ensures var score := Numbers(e, rules, a, n).score;
            && (score == a.score || exists i :: 0 <= i < n && NumberWeighs(e.numericChanges[i], e, rules, score))
            && a.score <= score && forall i, s | 0 <= i < n && NumberWeighs(e.numericChanges[i], e, rules, s) :: s <= score
  {
    if n > 0 { NumbersWeigh(e, rules, a, n - 1); }
  }

  lemma {:induction false} AllDatesWeigh(e: Evidence, rules: TextRules, a: Assessed, n: nat)
    requires n <= |e.changes|
    ensures var score := Dates(e, rules, a, n).score;
            && (score == a.score || exists i :: 0 <= i < n && DatesWeigh(e.changes[i], rules, score))
            && a.score <= score && forall i, s | 0 <= i < n && DatesWeigh(e.changes[i], rules, s) :: s <= score
  {
    if n > 0 { AllDatesWeigh(e, rules, a, n - 1); }
  }

  lemma {:induction false} PromptsWeigh(units: seq<Unit>, rules: TextRules, a: Assessed, n: nat)
    requires n <= |units|
    ensures var score := Prompts(units, rules, a, n).score;
            && (score == a.score || exists i :: 0 <= i < n && InstructionWeighs(units[i], rules, score))
            && a.score <= score && forall i, s | 0 <= i < n && InstructionWeighs(units[i], rules, s) :: s <= score
  {
    if n > 0 { PromptsWeigh(units, rules, a, n - 1); }
  }

  /** The score of the first four rounds is the largest that any piece of evidence has; with `MeaningExactly` and
      `ContentExactly` that is the static score. */
  lemma ScoreExactly(e: Evidence, rules: TextRules)
    ensures var score := Told(e, rules).score;
            (score == 0 || HasWeight(e, rules, score)) && forall s | HasWeight(e, rules, s) :: s <= score
  {
    var hidden := HiddenUnits(e.units);
    var units := PromptCandidates(e.changes, hidden);
    var a0 := Artifacts(e, |e.artifacts|);
    var a1 := WithHidden(a0, hidden);
    var a2 := Numbers(e, rules, a1, |e.numericChanges|);
    var a3 := Dates(e, rules, a2, |e.changes|);
    ArtifactsWeigh(e, |e.artifacts|);
    NumbersWeigh(e, rules, a1, |e.numericChanges|);
    AllDatesWeigh(e, rules, a2, |e.changes|);
    PromptsWeigh(units, rules, a3, |units|);
    assert forall i | 0 <= i < |units| :: units[i] in units;
  }
}
