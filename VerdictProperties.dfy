/**
 * What a verdict promises, for every message: how the classification and
 * the score agree, the order and bound of the reported labels, what the
 * analysis counters count, and that the outcome ignores ASCII case.
 */
module VerdictProperties {
  import opened Text
  import opened Regex
  import opened Catalogue
  import opened ScamDetection

  /** A message that no rule, keyword, link or ten-digit token reacts to. */
  predicate Quiet(message: string)
  {
    && (forall r :: r in HighRiskRules + WarningRules + SafeIndicatorRules ==> !Test(r.pattern, message))
    && (forall k :: k in SuspiciousKeywords + PaymentKeywords ==> !Contains(Lower(message), k))
    && !HasLink(message)
    && !HasTenDigitToken(message)
  }

  const QuietVerdict := Verdict(Safe, 0, [], Analysis(0, 0, 0, false, false))

  lemma QuietMessageIsSafe(message: string)
    requires Quiet(message)
    ensures Classify(message) == QuietVerdict
  {
    HitsEmptyIff(HighRiskRules, message);
    HitsEmptyIff(WarningRules, message);
    HitsEmptyIff(SafeIndicatorRules, message);
    CountPresentZeroIff(SuspiciousKeywords, Lower(message));
    CountPresentZeroIff(PaymentKeywords, Lower(message));
  }

  lemma EmptyMessageIsQuiet(message: string)
    requires |message| == 0
    ensures Quiet(message)
  {
    PatternsNeedText();
    KeywordsNotEmpty();
    assert |Lower(message)| == 0;
    forall r | r in HighRiskRules + WarningRules + SafeIndicatorRules
      ensures !Test(r.pattern, message)
    {
      assert |r.pattern[0]| > 0;
    }
    assert !Test([Lit("http://")], message) by { assert |Lit("http://")| > 0; }
    assert !Test([Lit("https://")], message) by { assert |Lit("https://")| > 0; }
    assert !Test([Lit("bit.ly")], message) by { assert |Lit("bit.ly")| > 0; }
    assert !Test([Lit("tinyurl")], message) by { assert |Lit("tinyurl")| > 0; }
  }

  lemma EmptyMessageIsSafe()
    ensures Classify("") == QuietVerdict
  {
    EmptyMessageIsQuiet("");
    QuietMessageIsSafe("");
  }

  /**
   * The classification agrees with the returned score: `high_risk` exactly
   * from 70 on, `warning` from 30 to 69, `safe` only below 30, and below 30
   * any safe indicator makes the message `safe`.  A `warning` below 30 is
   * exactly the lone link heuristic, at score 25.
   */
  lemma ClassificationMatchesScore(message: string)
    ensures var v := Classify(message);
      && (v.classification == HighRisk <==> v.riskScore >= 70)
      && (30 <= v.riskScore < 70 ==> v.classification == Warning)
      && (v.riskScore < 30 && v.analysis.safeIndicators > 0 ==> v.classification == Safe)
      && (v.classification == Safe ==> v.riskScore < 30)
      && (v.classification == Warning && v.riskScore < 30 <==>
            v.riskScore == LinkWeight && v.detectedPatterns == [LinkLabel])
  {
    var e := Gather(message);
    if IncrementalClassification(e) == Warning && RawScore(e) < 30 && e.safeIndicators == 0 {
      assert |e.warning| == 0;
      assert e.warning == [];
    }
    if DetectedPatterns(e) == [LinkLabel] {
      HitsInOrder(HighRiskRules, message);
      HitsInOrder(WarningRules, message);
      SubsequenceBounds(e.highRisk, Descriptions(HighRiskRules));
      SubsequenceBounds(e.warning, Descriptions(WarningRules));
      LabelsSeparate();
      LinkLabelAlone(e);
    }
  }

  /** The list `[LinkLabel]` can only come from the link heuristic alone. */
  lemma LinkLabelAlone(e: Evidence)
    requires DetectedPatterns(e) == [LinkLabel]
    requires LinkLabel !in e.highRisk && LinkLabel !in e.warning
    ensures e.highRisk == [] && e.warning == [] && !KeywordCombination(e) && e.hasLinks && !PhoneInContext(e)
  {
    var tail := (if KeywordCombination(e) then [ComboLabel] else []) + (if e.hasLinks then [LinkLabel] else [])
      + (if PhoneInContext(e) then [PhoneLabel] else []);
    assert DetectedPatterns(e) == e.highRisk + e.warning + tail;
    assert LinkLabel in DetectedPatterns(e);
    assert LinkLabel in e.highRisk + e.warning + tail;
    assert LinkLabel !in e.highRisk + e.warning;
    assert LinkLabel in tail;
    assert |e.highRisk| + |e.warning| + |tail| == 1;
    assert tail == [LinkLabel];
    assert tail[0] == if KeywordCombination(e) then ComboLabel else if e.hasLinks then LinkLabel else PhoneLabel;
    LabelsSeparate();
  }

  /**
   * Without a safe indicator every weight is positive, so the unclamped score
   * is never negative; below 30 the final step then keeps the classification
   * the checks reached.
   */
  lemma LowScoreKeepsIncremental(message: string)
    ensures var v := Classify(message);
      var e := Gather(message);
      && (v.analysis.safeIndicators == 0 ==> RawScore(e) >= 0)
      && (v.riskScore < 30 && v.analysis.safeIndicators == 0 ==> v.classification == IncrementalClassification(e))
  {
  }

  /** The analysis flags are the link test and the ten-digit token test themselves. */
  lemma AnalysisFlagsAreTheTests(message: string)
    ensures Classify(message).analysis.hasLinks == HasLink(message)
    ensures Classify(message).analysis.hasPhoneNumber == HasTenDigitToken(message)
  {
  }

  /**
   * A bare ten-digit number sets the phone flag, but without a suspicious
   * keyword it adds no label.
   */
  lemma BarePhoneNumberIsNotReported(message: string)
    requires HasTenDigitToken(message)
    requires forall k :: k in SuspiciousKeywords ==> !Contains(Lower(message), k)
    ensures Classify(message).analysis.hasPhoneNumber
    ensures PhoneLabel !in Classify(message).detectedPatterns
  {
    CountPresentZeroIff(SuspiciousKeywords, Lower(message));
    HeuristicLabelsMatchAnalysis(message);
  }

  /**
   * A message whose only signal is a link ends as `warning` with score 25
   * and the link label alone.
   */
  lemma LinkAloneWarns(message: string)
    requires forall r :: r in HighRiskRules + WarningRules + SafeIndicatorRules ==> !Test(r.pattern, message)
    requires forall k :: k in SuspiciousKeywords ==> !Contains(Lower(message), k)
    requires HasLink(message)
    ensures Classify(message).classification == Warning
    ensures Classify(message).riskScore == LinkWeight
    ensures Classify(message).detectedPatterns == [LinkLabel]
  {
    HitsEmptyIff(HighRiskRules, message);
    HitsEmptyIff(WarningRules, message);
    HitsEmptyIff(SafeIndicatorRules, message);
    CountPresentZeroIff(SuspiciousKeywords, Lower(message));
  }

  lemma OptionalLabels(combo: bool, link: bool, phone: bool)
    ensures IsSubsequence(
      (if combo then [ComboLabel] else []) + (if link then [LinkLabel] else []) + (if phone then [PhoneLabel] else []),
      [ComboLabel, LinkLabel, PhoneLabel])
  {
    assert IsSubsequence(if combo then [ComboLabel] else [], [ComboLabel]);
    assert IsSubsequence(if link then [LinkLabel] else [], [LinkLabel]);
    assert IsSubsequence(if phone then [PhoneLabel] else [], [PhoneLabel]);
    SubsequenceAppend(if combo then [ComboLabel] else [], [ComboLabel],
                      if link then [LinkLabel] else [], [LinkLabel]);
    SubsequenceAppend((if combo then [ComboLabel] else []) + (if link then [LinkLabel] else []), [ComboLabel, LinkLabel],
                      if phone then [PhoneLabel] else [], [PhoneLabel]);
  }

  /** Ordered parts keep their order when the heuristic labels follow them. */
  lemma LabelsAfterTables(x: seq<string>, y: seq<string>, a: seq<string>, b: seq<string>, c: seq<string>,
                          dx: seq<string>, dy: seq<string>, t: seq<string>)
    requires IsSubsequence(x, dx) && IsSubsequence(y, dy) && IsSubsequence(a + b + c, t)
    ensures IsSubsequence(x + y + a + b + c, dx + dy + t)
  {
    SubsequenceAppend(x, dx, y, dy);
    SubsequenceAppend(x + y, dx + dy, a + b + c, t);
    assert x + y + a + b + c == (x + y) + (a + b + c);
  }

  lemma EvidenceLabelsInOrder(e: Evidence)
    requires IsSubsequence(e.highRisk, Descriptions(HighRiskRules))
    requires IsSubsequence(e.warning, Descriptions(WarningRules))
    ensures IsSubsequence(DetectedPatterns(e), AllLabels())
  {
    OptionalLabels(KeywordCombination(e), e.hasLinks, PhoneInContext(e));
    LabelsAfterTables(e.highRisk, e.warning,
                      if KeywordCombination(e) then [ComboLabel] else [],
                      if e.hasLinks then [LinkLabel] else [],
                      if PhoneInContext(e) then [PhoneLabel] else [],
                      Descriptions(HighRiskRules), Descriptions(WarningRules), [ComboLabel, LinkLabel, PhoneLabel]);
  }

  /**
   * `detectedPatterns` lists high-risk descriptions in table order, then
   * warning descriptions in table order, then the combination, link and
   * phone labels, each at most once; a safe indicator never adds a label.
   */
  lemma DetectedPatternsOrdered(message: string)
    ensures IsSubsequence(Classify(message).detectedPatterns, AllLabels())
    ensures |Classify(message).detectedPatterns| <= 17
    ensures forall d :: d in Classify(message).detectedPatterns ==> d !in Descriptions(SafeIndicatorRules)
  {
    var detected := Classify(message).detectedPatterns;
    HitsInOrder(HighRiskRules, message);
    HitsInOrder(WarningRules, message);
    EvidenceLabelsInOrder(Gather(message));
    assert IsSubsequence(detected, AllLabels());
    SubsequenceBounds(detected, AllLabels());
    LabelsSeparate();
  }

  /**
   * Each heuristic label is reported exactly when its condition holds.
   * `hasPhoneNumber` alone does not add the phone label: that also needs a
   * suspicious keyword.
   */
  lemma HeuristicLabelsMatchAnalysis(message: string)
    ensures var v := Classify(message);
      && (ComboLabel in v.detectedPatterns <==> v.analysis.suspiciousKeywords >= 2 && v.analysis.paymentKeywords >= 1)
      && (LinkLabel in v.detectedPatterns <==> v.analysis.hasLinks)
      && (PhoneLabel in v.detectedPatterns <==> v.analysis.hasPhoneNumber && v.analysis.suspiciousKeywords > 0)
  {
    var e := Gather(message);
    HitsInOrder(HighRiskRules, message);
    HitsInOrder(WarningRules, message);
    SubsequenceBounds(e.highRisk, Descriptions(HighRiskRules));
    SubsequenceBounds(e.warning, Descriptions(WarningRules));
    LabelsSeparate();
    assert forall d :: d in e.highRisk + e.warning ==> d in Descriptions(HighRiskRules) + Descriptions(WarningRules);
  }

  /**
   * The analysis counters count distinct catalogue entries present, not
   * occurrences, and so stay within the sizes of their tables; the
   * safe-indicator counter counts every safe rule that matches.
   */
  lemma AnalysisCountsDistinctEntries(message: string)
    ensures var a := Classify(message).analysis;
      && a.suspiciousKeywords == |set k | k in SuspiciousKeywords && Contains(Lower(message), k)|
      && a.paymentKeywords == |set k | k in PaymentKeywords && Contains(Lower(message), k)|
      && a.safeIndicators == |set r | r in SafeIndicatorRules && Test(r.pattern, message)|
      && a.suspiciousKeywords <= 12
      && a.paymentKeywords <= 7
      && a.safeIndicators <= 4
      && (a.safeIndicators == 0 <==> forall r :: r in SafeIndicatorRules ==> !Test(r.pattern, message))
  {
    KeywordListsDistinct();
    CountPresentIsDistinctCount(SuspiciousKeywords, Lower(message));
    CountPresentIsDistinctCount(PaymentKeywords, Lower(message));
    DescriptionsDistinct();
    HitsCountsMatchingRules(SafeIndicatorRules, message);
    HitsEmptyIff(SafeIndicatorRules, message);
  }

  lemma DescriptionOf(rules: seq<Rule>, r: Rule)
    requires r in rules
    ensures r.description in Descriptions(rules)
  {
    var i :| 0 <= i < |rules| && rules[i] == r;
    assert Descriptions(rules)[i] == r.description;
  }

  /**
   * Two tables with distinct descriptions reported one after the other, then
   * labels that are no description: a rule's description is in the list
   * exactly when the rule matches.
   */
  lemma ReportedIffMatches(first: seq<Rule>, second: seq<Rule>, a: seq<string>, b: seq<string>, c: seq<string>,
                           message: string, r: Rule)
    requires Distinct(Descriptions(first)) && Distinct(Descriptions(second))
    requires forall d :: d in Descriptions(first) ==> d !in Descriptions(second)
    requires forall d :: d in Descriptions(first) + Descriptions(second) ==> d !in a && d !in b && d !in c
    requires r in first + second
    ensures r.description in Hits(first, message) + Hits(second, message) + a + b + c <==> Test(r.pattern, message)
  {
    HitsInOrder(first, message);
    HitsInOrder(second, message);
    SubsequenceBounds(Hits(first, message), Descriptions(first));
    SubsequenceBounds(Hits(second, message), Descriptions(second));
    if r in first {
      DescriptionOf(first, r);
      HitsIff(first, message, r);
    } else {
      DescriptionOf(second, r);
      HitsIff(second, message, r);
    }
  }

  /**
   * Every high-risk and warning rule is checked: its description is
   * reported exactly when its pattern matches, whatever else matched.
   */
  lemma EveryMatchingRuleReported(message: string, r: Rule)
    requires r in HighRiskRules + WarningRules
    ensures r.description in Classify(message).detectedPatterns <==> Test(r.pattern, message)
  {
    var e := Gather(message);
    DescriptionsDistinct();
    LabelsSeparate();
    ReportedIffMatches(HighRiskRules, WarningRules,
      if KeywordCombination(e) then [ComboLabel] else [],
      if e.hasLinks then [LinkLabel] else [],
      if PhoneInContext(e) then [PhoneLabel] else [],
      message, r);
  }

  /**
   * The score adds the weight of every matching rule of each table and of
   * every heuristic that fires, and is then clamped to [0, 100].
   */
  lemma ScoreCountsEveryMatch(message: string)
    ensures var v := Classify(message);
      var a := v.analysis;
      var raw := HighRiskWeight * |set r | r in HighRiskRules && Test(r.pattern, message)|
        + WarningWeight * |set r | r in WarningRules && Test(r.pattern, message)|
        - SafeIndicatorWeight * |set r | r in SafeIndicatorRules && Test(r.pattern, message)|
        + (if a.suspiciousKeywords >= 2 && a.paymentKeywords >= 1 then ComboWeight else 0)
        + (if a.hasLinks then LinkWeight else 0)
        + (if a.hasPhoneNumber && a.suspiciousKeywords > 0 then PhoneWeight else 0);
      v.riskScore == if raw < 0 then 0 else if raw > 100 then 100 else raw
  {
    DescriptionsDistinct();
    HitsCountsMatchingRules(HighRiskRules, message);
    HitsCountsMatchingRules(WarningRules, message);
    HitsCountsMatchingRules(SafeIndicatorRules, message);
  }

  /**
   * A high-risk rule that matches decides the message unless a safe indicator
   * pulls the score back: without one the verdict is `high_risk` with a
   * score of at least 80.
   */
  lemma HighRiskMatchWithoutSafeIndicator(message: string, r: Rule)
    requires r in HighRiskRules && Test(r.pattern, message)
    requires forall s :: s in SafeIndicatorRules ==> !Test(s.pattern, message)
    ensures Classify(message).classification == HighRisk
    ensures Classify(message).riskScore >= 80
  {
    HitsEmptyIff(HighRiskRules, message);
    HitsEmptyIff(SafeIndicatorRules, message);
    assert |Gather(message).highRisk| >= 1;
  }

  /**
   * Two suspicious keywords and a payment keyword are enough for at least a
   * `warning` when no safe indicator matches, whatever the rule tables say.
   */
  lemma KeywordCombinationAloneWarns(message: string, k1: string, k2: string, pay: string)
    requires k1 in SuspiciousKeywords && k2 in SuspiciousKeywords && k1 != k2
    requires Contains(Lower(message), k1) && Contains(Lower(message), k2)
    requires pay in PaymentKeywords && Contains(Lower(message), pay)
    requires forall s :: s in SafeIndicatorRules ==> !Test(s.pattern, message)
    ensures Classify(message).classification != Safe
    ensures Classify(message).riskScore >= 30
    ensures ComboLabel in Classify(message).detectedPatterns
  {
    var lower := Lower(message);
    KeywordListsDistinct();
    TwoKeywordsCount(SuspiciousKeywords, lower, k1, k2);
    CountPresentZeroIff(PaymentKeywords, lower);
    HitsEmptyIff(SafeIndicatorRules, message);
  }

  /** Two different keywords of a list without repeats that both occur count at least two. */
  lemma TwoKeywordsCount(keywords: seq<string>, text: string, k1: string, k2: string)
    requires Distinct(keywords)
    requires k1 in keywords && k2 in keywords && k1 != k2
    requires Contains(text, k1) && Contains(text, k2)
    ensures CountPresent(keywords, text) >= 2
  {
    CountPresentIsDistinctCount(keywords, text);
    var present := set k | k in keywords && Contains(text, k);
    assert {k1, k2} <= present;
    assert |{k1, k2}| == 2;
    SubsetCardinality({k1, k2}, present);
  }

  lemma SubsetCardinality<T>(a: set<T>, b: set<T>)
    requires a <= b
    ensures |a| <= |b|
  {
    assert b == a + (b - a);
  }

  /**
   * A payment confirmation: a safe indicator matches, no high-risk or
   * warning rule does, there is no link and no keyword combination.  The
   * verdict is `safe` with score 0; the phone label is the only one that can
   * still be reported.
   */
  lemma ConfirmationIsSafe(message: string, s: Rule)
    requires s in SafeIndicatorRules && Test(s.pattern, message)
    requires forall r :: r in HighRiskRules + WarningRules ==> !Test(r.pattern, message)
    requires !HasLink(message)
    requires !KeywordCombination(Gather(message))
    ensures Classify(message).classification == Safe
    ensures Classify(message).riskScore == 0
    ensures var v := Classify(message);
      v.detectedPatterns == if v.analysis.hasPhoneNumber && v.analysis.suspiciousKeywords > 0 then [PhoneLabel] else []
  {
    var e := Gather(message);
    HitsEmptyIff(HighRiskRules, message);
    HitsEmptyIff(WarningRules, message);
    HitsEmptyIff(SafeIndicatorRules, message);
    assert e.highRisk == [] && e.warning == [] && e.safeIndicators >= 1 && !e.hasLinks;
    ConfirmationEvidence(e);
  }

  lemma ConfirmationEvidence(e: Evidence)
    requires e.highRisk == [] && e.warning == [] && e.safeIndicators >= 1 && !e.hasLinks && !KeywordCombination(e)
    ensures Decide(e).classification == Safe && Decide(e).riskScore == 0
    ensures Decide(e).detectedPatterns == if PhoneInContext(e) then [PhoneLabel] else []
  {
  }

  lemma {:induction false} HitsIgnoreCase(rules: seq<Rule>, message: string)
    ensures Hits(rules, Lower(message)) == Hits(rules, message)
    decreases |rules|
  {
    if rules != [] {
      HitsIgnoreCase(rules[..|rules| - 1], message);
      TestIgnoresCase(rules[|rules| - 1].pattern, message);
    }
  }

  lemma TenDigitTokenIgnoresCase(message: string)
    ensures HasTenDigitToken(Lower(message)) == HasTenDigitToken(message)
  {
    var low := Lower(message);
    forall i | 0 <= i <= |message| - 10
      ensures TenDigitTokenAt(low, i) == TenDigitTokenAt(message, i)
    {
      forall k | 0 <= k < |message|
        ensures IsDigit(low[k]) == IsDigit(message[k]) && IsWordChar(low[k]) == IsWordChar(message[k])
      {
        LowerCharKeepsClasses(message[k]);
      }
    }
  }

  /** The verdict ignores ASCII case: lower-casing the message first changes nothing. */
  lemma ClassifyIgnoresCase(message: string)
    ensures Classify(Lower(message)) == Classify(message)
  {
    HitsIgnoreCase(HighRiskRules, message);
    HitsIgnoreCase(WarningRules, message);
    HitsIgnoreCase(SafeIndicatorRules, message);
    LowerIdempotent(message);
    TestIgnoresCase([Lit("http://")], message);
    TestIgnoresCase([Lit("https://")], message);
    TestIgnoresCase([Lit("bit.ly")], message);
    TestIgnoresCase([Lit("tinyurl")], message);
    TenDigitTokenIgnoresCase(message);
    assert Gather(Lower(message)) == Gather(message);
  }
}
