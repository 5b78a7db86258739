/** What a report shows of what was found: exactly when a blocked document is reported without any severe
    finding, and which evidence does that. */
module RiskReport {
  import opened Wrappers
  import opened Contracts
  import opened RiskEngine
  import opened RiskService

  // ---------------------------------------------------------------- deduplication

  lemma {:induction false} DeduplicateLaws(rules: TextRules, findings: seq<Finding>)
    ensures forall f | f in Deduplicate(rules, findings) :: f in findings
    ensures forall f | f in findings :: IsKnown(rules, Deduplicate(rules, findings), f)
    ensures AllDiffer(rules, Deduplicate(rules, findings))
  {
    if findings != [] {
      var before, last := findings[..|findings| - 1], findings[|findings| - 1];
      DeduplicateLaws(rules, before);
      assert findings == before + [last];
      if !IsKnown(rules, Deduplicate(rules, before), last) {
        KnowsOneMore(rules, before, Deduplicate(rules, before), last);
      }
    }
  }

  ghost predicate AllDiffer(rules: TextRules, findings: seq<Finding>) {
    forall i, j | 0 <= i < j < |findings| :: !SameKey(rules, findings[i], findings[j])
  }

  lemma KnowsOneMore(rules: TextRules, findings: seq<Finding>, output: seq<Finding>, last: Finding)
    requires forall f | f in findings :: IsKnown(rules, output, f)
    requires AllDiffer(rules, output) && !IsKnown(rules, output, last)
    ensures forall f | f in findings + [last] :: IsKnown(rules, output + [last], f)
    ensures AllDiffer(rules, output + [last])
  {
    forall f | f in findings + [last] ensures IsKnown(rules, output + [last], f) {
      if f in findings {
        var g :| g in output && SameKey(rules, g, f);
        assert g in output + [last];
      } else {
        assert last in output + [last] && SameKey(rules, last, f);
      }
    }
    forall i | 0 <= i < |output| ensures !SameKey(rules, output[i], last) {
      assert output[i] in output;
    }
  }

  /** No finding of this key stands before it. */
  ghost predicate IsFirst(rules: TextRules, findings: seq<Finding>, i: nat) {
    i < |findings| && forall j | 0 <= j < i :: !SameKey(rules, findings[j], findings[i])
  }

  /** Where a first finding stands among the distinct ones. */
  function Place(rules: TextRules, findings: seq<Finding>, i: nat): nat
    requires i <= |findings|
  {
    |Deduplicate(rules, findings[..i])|
  }

  lemma LastIsFirstExactly(rules: TextRules, findings: seq<Finding>)
    requires findings != []
    ensures var n := |findings| - 1;
            IsFirst(rules, findings, n) <==> !IsKnown(rules, Deduplicate(rules, findings[..n]), findings[n])
  {
    var n := |findings| - 1;
    var before := findings[..n];
    KnownExactly(rules, before, findings[n]);
    if IsKnown(rules, before, findings[n]) {
      var g :| g in before && SameKey(rules, g, findings[n]);
      var j: nat :| j < n && before[j] == g;
      assert findings[j] == g;
    } else {
      forall j | 0 <= j < n ensures !SameKey(rules, findings[j], findings[n]) {
        assert findings[j] == before[j] && before[j] in before;
      }
    }
  }

  /** Deduplication forgets no key. */
  lemma KnownExactly(rules: TextRules, findings: seq<Finding>, f: Finding)
    ensures IsKnown(rules, Deduplicate(rules, findings), f) <==> IsKnown(rules, findings, f)
  {
    DeduplicateLaws(rules, findings);
    if IsKnown(rules, findings, f) {
      var g :| g in findings && SameKey(rules, g, f);
      var h :| h in Deduplicate(rules, findings) && SameKey(rules, h, g);
    }
  }

  /** The first finding of its key at `i` is the distinct one at `k`. */
  ghost predicate IsKept(rules: TextRules, findings: seq<Finding>, i: nat, k: nat, f: Finding) {
    IsFirst(rules, findings, i) && Place(rules, findings, i) == k && findings[i] == f
  }

  /** What is kept is exactly the first finding of each key, at its place. */
  lemma {:induction false} KeptExactly(rules: TextRules, findings: seq<Finding>, k: nat, f: Finding)
    ensures k < |Deduplicate(rules, findings)| && Deduplicate(rules, findings)[k] == f
       <==> exists i: nat :: IsKept(rules, findings, i, k, f)
  {
    if findings != [] {
      var n := |findings| - 1;
      var before, distinct := findings[..n], Deduplicate(rules, findings[..n]);
      KeptExactly(rules, before, k, f);
      LastIsFirstExactly(rules, findings);
      forall i: nat | i < n ensures IsKept(rules, before, i, k, f) <==> IsKept(rules, findings, i, k, f) {
        PrefixPlaces(rules, findings, n, i);
      }
      if k < |distinct| && distinct[k] == f {
        var i: nat :| IsKept(rules, before, i, k, f);
        assert IsKept(rules, findings, i, k, f);
      } else if IsKept(rules, findings, n, k, f) {
        assert k == |distinct|;
      } else {
        forall i: nat ensures !IsKept(rules, findings, i, k, f) {
          if i < n { assert !IsKept(rules, before, i, k, f); }
        }
      }
    }
  }

  lemma PrefixPlaces(rules: TextRules, findings: seq<Finding>, n: nat, i: nat)
    requires i < n <= |findings|
    ensures IsFirst(rules, findings[..n], i) <==> IsFirst(rules, findings, i)
    ensures Place(rules, findings[..n], i) == Place(rules, findings, i)
  {
    assert findings[..n][..i] == findings[..i];
  }

  /** Reporting what is reported changes nothing. */
  lemma {:induction false} DistinctStays(rules: TextRules, findings: seq<Finding>)
    requires AllDiffer(rules, findings)
    ensures Deduplicate(rules, findings) == findings
  {
    if findings != [] {
      var before, last := findings[..|findings| - 1], findings[|findings| - 1];
      DistinctStays(rules, before);
      assert findings == before + [last];
      forall g | g in before ensures !SameKey(rules, g, last) {
        var j: nat :| j < |before| && before[j] == g;
        assert findings[j] == g;
      }
    }
  }

  lemma ReportedStays(rules: TextRules, findings: seq<Finding>)
    ensures Reported(rules, Reported(rules, findings)) == Reported(rules, findings)
  {
    DeduplicateLaws(rules, findings);
    DistinctStays(rules, Reported(rules, findings));
  }

  // ---------------------------------------------------------------- severe findings that are reported

  /** A severe finding that is the first of its key, and not behind a hundred others. */
  ghost predicate Shows(rules: TextRules, findings: seq<Finding>, i: nat) {
    IsFirst(rules, findings, i) && IsSevere(findings[i]) && Place(rules, findings, i) < MAX_FINDINGS
  }

  lemma SevereIsReportedExactly(rules: TextRules, findings: seq<Finding>)
    ensures AnySevere(Reported(rules, findings)) <==> exists i: nat :: Shows(rules, findings, i)
  {
    var distinct, reported := Deduplicate(rules, findings), Reported(rules, findings);
    if AnySevere(reported) {
      var f :| f in reported && IsSevere(f);
      var k: nat :| k < |reported| && reported[k] == f;
      KeptExactly(rules, findings, k, f);
      var i: nat :| IsKept(rules, findings, i, k, f);
      assert Shows(rules, findings, i);
    }
    if i: nat :| Shows(rules, findings, i) {
      var k := Place(rules, findings, i);
      assert IsKept(rules, findings, i, k, findings[i]);
      KeptExactly(rules, findings, k, findings[i]);
      assert reported[k] == findings[i];
    }
  }

  /** A document is blocked without any severe finding in its report exactly if its request is intact,
      something severe was found, and none of that shows. */
  lemma BlockIsUnexplainedExactly(e: Evidence, rules: TextRules, submittedBy: string)
    ensures var a, findings := Analyze(e, rules, None, submittedBy), Assess(e, rules).findings;
            && (AnySevere(a.findings) <==> IntegrityIssue(e).Some? || exists i: nat :: Shows(rules, findings, i))
            && (a.submission.policy.decision == BLOCK && !AnySevere(a.findings)
                <==> IntegrityIssue(e).None? && AnySevere(findings) && !exists i: nat :: Shows(rules, findings, i))
  {
    var a, findings := Analyze(e, rules, None, submittedBy), Assess(e, rules).findings;
    AllowedExactlyWhenQuiet(e, rules, submittedBy);
    if IntegrityIssue(e).Some? {
      assert IsSevere(a.findings[0]);
    } else {
      ReportedStays(rules, findings);
      SevereIsReportedExactly(rules, findings);
    }
  }

  // ---------------------------------------------------------------- the findings of the static rounds

  /** How a static finding looks, by its cause. Only a change of dates is sometimes severe and sometimes not. */
  predicate IsWellMade(f: Finding) {
    match f.cause
    case ArtifactFound(kind, reason) =>
      f.before.None? && f.after.None? && f.severity == ArtifactSeverity(ArtifactNote(kind, reason))
    case HiddenText => IsSevere(f)
    case PolicyNumberChange => IsSevere(f)
    case PromptInjection(_) => IsSevere(f) && f.after.Some?
    case PolicyDateChange => f.before.Some? || f.after.Some?
    case NumberChange => !IsSevere(f)
    case PolicySemanticChange => !IsSevere(f)
    case DocumentContentChange => !IsSevere(f)
    case _ => false
  }

  predicate AllWellMade(a: Assessed) {
    forall f | f in a.findings :: IsWellMade(f)
  }

  lemma {:induction false} ArtifactsWellMade(e: Evidence, n: nat)
    requires n <= |e.artifacts|
    ensures AllWellMade(Artifacts(e, n))
  {
    if n > 0 { ArtifactsWellMade(e, n - 1); }
  }

  lemma {:induction false} NumbersWellMade(e: Evidence, rules: TextRules, a: Assessed, n: nat)
    requires n <= |e.numericChanges| && AllWellMade(a)
    ensures AllWellMade(Numbers(e, rules, a, n))
  {
    if n > 0 { NumbersWellMade(e, rules, a, n - 1); }
  }

  lemma {:induction false} DatesWellMade(e: Evidence, rules: TextRules, a: Assessed, n: nat)
    requires n <= |e.changes| && AllWellMade(a)
    ensures AllWellMade(Dates(e, rules, a, n))
  {
    if n > 0 { DatesWellMade(e, rules, a, n - 1); }
  }

  lemma {:induction false} PromptsWellMade(units: seq<Unit>, rules: TextRules, a: Assessed, n: nat)
    requires n <= |units| && AllWellMade(a)
    ensures AllWellMade(Prompts(units, rules, a, n))
  {
    if n > 0 { PromptsWellMade(units, rules, a, n - 1); }
  }

  lemma {:induction false} MeaningsWellMade(e: Evidence, rules: TextRules, a: Assessed, n: nat)
    requires n <= |e.changes| && AllWellMade(a)
    ensures AllWellMade(Meanings(e, rules, a, n))
  {
    if n > 0 { MeaningsWellMade(e, rules, a, n - 1); }
  }

  lemma StaticFindingsWellMade(e: Evidence, rules: TextRules)
    ensures AllWellMade(Assess(e, rules))
  {
    var hidden := HiddenUnits(e.units);
    var units := PromptCandidates(e.changes, hidden);
    var a1 := WithHidden(Artifacts(e, |e.artifacts|), hidden);
    var a2 := Numbers(e, rules, a1, |e.numericChanges|);
    var a3 := Dates(e, rules, a2, |e.changes|);
    var a4 := Prompts(units, rules, a3, |units|);
    ArtifactsWellMade(e, |e.artifacts|);
    NumbersWellMade(e, rules, a1, |e.numericChanges|);
    DatesWellMade(e, rules, a2, |e.changes|);
    PromptsWellMade(units, rules, a3, |units|);
    MeaningsWellMade(e, rules, a4, |e.changes|);
  }

  // ---------------------------------------------------------------- which evidence hides what is severe

  /** The types of findings as the source words them; artifacts and the judge bring their own. */
  ghost predicate WordsTypes(rules: TextRules) {
    && (forall kind, reason :: rules.typeOf(ArtifactFound(kind, reason)) == kind)
    && (forall kind, reason :: rules.typeOf(Judged(kind, reason)) == kind)
    && rules.typeOf(HiddenText) == "HIDDEN_TEXT"
    && rules.typeOf(PolicyNumberChange) == "POLICY_NUMBER_CHANGE"
    && rules.typeOf(NumberChange) == "NUMBER_CHANGE"
    && rules.typeOf(PolicyDateChange) == "POLICY_DATE_CHANGE"
    && (forall isHidden :: rules.typeOf(PromptInjection(isHidden)) == "PROMPT_INJECTION")
    && rules.typeOf(PolicySemanticChange) == "POLICY_SEMANTIC_CHANGE"
    && rules.typeOf(DocumentContentChange) == "DOCUMENT_CONTENT_CHANGE"
  }

  /** The mild finding `f` and the severe finding `g` are two changes between the same dates, or an artifact
      that bears the type and the reason of a policy number change without any numbers. */
  predicate Masks(rules: TextRules, f: Finding, g: Finding) {
    || (f.cause.PolicyDateChange? && g.cause.PolicyDateChange?)
    || (f.cause.ArtifactFound? && g.cause.PolicyNumberChange? && g.before.None? && g.after.None?
        && rules.typeOf(f.cause) == rules.typeOf(g.cause) && rules.reasonOf(f.cause) == rules.reasonOf(g.cause))
  }

  /** Only dates, and artifacts that pose as a number change, can take the place of a severe finding. */
  lemma MaskedOnlyByDates(rules: TextRules, f: Finding, g: Finding)
    requires WordsTypes(rules) && IsWellMade(f) && IsWellMade(g) && SameKey(rules, f, g) && !IsSevere(f) && IsSevere(g)
    ensures Masks(rules, f, g)
  {
    TypesDiffer();
  }

  lemma TypesDiffer()
    ensures |"HIDDEN_TEXT"| == 11 && |"POLICY_NUMBER_CHANGE"| == 20 && |"NUMBER_CHANGE"| == 13
    ensures |"POLICY_DATE_CHANGE"| == 18 && |"PROMPT_INJECTION"| == 16 && |"POLICY_SEMANTIC_CHANGE"| == 22
    ensures |"DOCUMENT_CONTENT_CHANGE"| == 23
  {
  }

  /** With no more than a hundred distinct findings, a block is unexplained exactly if every severe finding
      stands behind a mild one that masks it. */
  lemma MaskedExactly(e: Evidence, rules: TextRules, submittedBy: string)
    requires IntegrityIssue(e).None? && WordsTypes(rules) && AnySevere(Assess(e, rules).findings)
    requires |Deduplicate(rules, Assess(e, rules).findings)| <= MAX_FINDINGS
    ensures var findings := Assess(e, rules).findings;
            (!AnySevere(Analyze(e, rules, None, submittedBy).findings)
             <==> forall i | 0 <= i < |findings| && IsSevere(findings[i]) :: IsMasked(rules, findings, i))
  {
    var findings := Assess(e, rules).findings;
    BlockIsUnexplainedExactly(e, rules, submittedBy);
    if forall i | 0 <= i < |findings| && IsSevere(findings[i]) :: IsMasked(rules, findings, i) {
      forall i: nat ensures !Shows(rules, findings, i) {
        if i < |findings| && IsSevere(findings[i]) {
          assert IsMasked(rules, findings, i);
        }
      }
    }
    if !exists i: nat :: Shows(rules, findings, i) {
      forall i | 0 <= i < |findings| && IsSevere(findings[i]) ensures IsMasked(rules, findings, i) {
        StaticFindingsWellMade(e, rules);
        FirstMasks(rules, findings, i);
      }
    }
  }

  /** A mild finding of the same key stands before it. */
  ghost predicate IsMasked(rules: TextRules, findings: seq<Finding>, i: nat)
    requires i < |findings|
  {
    exists j :: 0 <= j < i && SameKey(rules, findings[j], findings[i]) && !IsSevere(findings[j])
                && Masks(rules, findings[j], findings[i])
  }

  /** The first finding of a key. */
  lemma FirstOfKey(rules: TextRules, findings: seq<Finding>, i: nat) returns (j: nat)
    requires i < |findings|
    ensures j <= i && IsFirst(rules, findings, j) && SameKey(rules, findings[j], findings[i])
  {
    j := i;
    while !IsFirst(rules, findings, j)
      invariant j <= i && SameKey(rules, findings[j], findings[i])
      decreases j
    {
      var k: nat :| k < j && SameKey(rules, findings[k], findings[j]);
      j := k;
    }
  }

  lemma FirstMasks(rules: TextRules, findings: seq<Finding>, i: nat)
    requires WordsTypes(rules) && i < |findings| && IsSevere(findings[i])
    requires forall f | f in findings :: IsWellMade(f)
    requires |Deduplicate(rules, findings)| <= MAX_FINDINGS
    requires !exists k: nat :: Shows(rules, findings, k)
    ensures IsMasked(rules, findings, i)
  {
    var j := FirstOfKey(rules, findings, i);
    assert IsKept(rules, findings, j, Place(rules, findings, j), findings[j]);
    KeptExactly(rules, findings, Place(rules, findings, j), findings[j]);
    assert !Shows(rules, findings, j);
    MaskedOnlyByDates(rules, findings[j], findings[i]);
  }

  // ---------------------------------------------------------------- an unexplained block

  /** Any digest will do. */
  function SomeSha256(): (sha: string)
    ensures IsSha256(sha)
  {
    seq(64, _ => 'a')
  }

  const FILED := Change(Some("Filed 2024-01-01"), Some("Filed 2024-02-01"))
  const LIMITED := Change(Some("2024-01-01 lim"), Some("ited 2024-02-01"))

  /** Two changes from one date to another. The second one speaks of policy, but only once its two sides are
      put together. */
  function TwoDates(): Evidence {
    var sha := SomeSha256();
    var moved := (i: int) => NumericChange(["2024-01-01"], ["2024-02-01"], i);
    Evidence(RiskRequest("req_1", "anl_1", "doc", 1, 1, "", sha, sha, "", "", DiffReport(sha, sha)), sha, sha,
             [FILED, LIMITED], [moved(0), moved(1)], [], [])
  }

  /** How the source's patterns read these texts. */
  ghost predicate ReadsDates(rules: TextRules) {
    && rules.dates(FILED.before.value) == rules.dates(LIMITED.before.value) == {"2024-01-01"}
    && rules.dates(FILED.after.value) == rules.dates(LIMITED.after.value) == {"2024-02-01"}
    && !rules.isPolicy(Combined(FILED)) && !rules.isPolicy(Combined(LIMITED))
    && !rules.isPolicy(Adjoined(FILED)) && rules.isPolicy(Adjoined(LIMITED))
    && !rules.isInjection(FILED.after.value) && !rules.isInjection(LIMITED.after.value)
  }

  lemma NumbersOfTwo(rules: TextRules, n: Finding)
    requires ReadsDates(rules) && n == Static(NumberChange, Some("2024-01-01"), Some("2024-02-01"), MEDIUM)
    ensures Numbers(TwoDates(), rules, NO_FINDINGS, 2) == Assessed([n, n], 55)
  {
    var e := TwoDates();
    assert !InPolicy(e.numericChanges[0], e.changes, rules) && !InPolicy(e.numericChanges[1], e.changes, rules);
    assert Numbers(e, rules, NO_FINDINGS, 1)
        == WithNumber(Numbers(e, rules, NO_FINDINGS, 0), e.numericChanges[0], e.changes, rules) == Assessed([n], 55);
    assert Numbers(e, rules, NO_FINDINGS, 2) == WithNumber(Assessed([n], 55), e.numericChanges[1], e.changes, rules);
  }

  lemma DatesOfTwo(rules: TextRules, n: Finding, f: Finding, g: Finding)
    requires ReadsDates(rules) && f == Static(PolicyDateChange, f.before, f.after, MEDIUM) && g == f.(severity := HIGH)
    requires f.before == Some(rules.listing({"2024-01-01"})) && f.after == Some(rules.listing({"2024-02-01"}))
    ensures Dates(TwoDates(), rules, Assessed([n, n], 55), 2) == Assessed([n, n, f, g], 70)
    ensures IsClassified(TwoDates(), rules, 0) && IsClassified(TwoDates(), rules, 1)
  {
    var e, a := TwoDates(), Assessed([n, n], 55);
    DatesDiffer();
    assert ChangesDates(e.changes[0], rules) && ChangesDates(e.changes[1], rules);
    assert Dates(e, rules, a, 1) == WithDates(Dates(e, rules, a, 0), e.changes[0], rules) == Assessed([n, n, f], 55);
    assert Dates(e, rules, a, 2) == WithDates(Assessed([n, n, f], 55), e.changes[1], rules);
  }

  lemma DatesDiffer()
    ensures {"2024-01-01"} != {"2024-02-01"}
  {
    assert "2024-01-01"[6] != "2024-02-01"[6];
    assert "2024-01-01" in {"2024-01-01"};
  }

  lemma NothingMore(e: Evidence, rules: TextRules, a: Assessed)
    requires e == TwoDates() && ReadsDates(rules) && a.findings != []
    requires Dates(e, rules, Numbers(e, rules, NO_FINDINGS, 2), 2) == a
    requires IsClassified(e, rules, 0) && IsClassified(e, rules, 1)
    ensures Assess(e, rules) == a
  {
    var first, second := Unit(FILED.after.value, false), Unit(LIMITED.after.value, false);
    IncomingOfTwo(FILED, LIMITED);
    var units := Incoming(e.changes) + [];
    assert units == [first, second];
    assert Prompts(units, rules, a, 1) == WithPrompt(Prompts(units, rules, a, 0), units[0], rules) == a;
    assert Prompts(units, rules, a, 2) == WithPrompt(a, units[1], rules) == a;
    assert Meanings(e, rules, a, 1) == WithMeaning(Meanings(e, rules, a, 0), FILED, true, rules) == a;
    assert Meanings(e, rules, a, 2) == WithMeaning(a, LIMITED, true, rules) == a;
  }

  lemma IncomingOfTwo(a: Change, b: Change)
    requires TextOf(a.after) != "" && TextOf(b.after) != ""
    ensures Incoming([a, b]) == [Unit(TextOf(a.after), false), Unit(TextOf(b.after), false)]
  {
    assert [a, b][..1] == [a] && [a][..0] == [];
    assert Incoming([a]) == Incoming([]) + [Unit(TextOf(a.after), false)];
  }

  /** The service blocks this document and reports nothing severe about it. */
  lemma BlockCanBeUnexplained(rules: TextRules, submittedBy: string)
    requires ReadsDates(rules)
    ensures var a := Analyze(TwoDates(), rules, None, submittedBy);
            a.submission.policy.decision == BLOCK && a.submission.policy.status == COMPLETED && !AnySevere(a.findings)
  {
    var e := TwoDates();
    var n := Static(NumberChange, Some("2024-01-01"), Some("2024-02-01"), MEDIUM);
    var f := Static(PolicyDateChange, Some(rules.listing({"2024-01-01"})), Some(rules.listing({"2024-02-01"})), MEDIUM);
    var g := f.(severity := HIGH);
    NumbersOfTwo(rules, n);
    DatesOfTwo(rules, n, f, g);
    NothingMore(e, rules, Assessed([n, n, f, g], 70));
    var findings := [n, n, f, g];
    assert SameKey(rules, findings[2], findings[3]) && IsSevere(findings[3]);
    forall i: nat ensures !Shows(rules, findings, i) {
      if i < 4 && IsSevere(findings[i]) { assert i == 3; }
    }
    BlockIsUnexplainedExactly(e, rules, submittedBy);
  }
}
