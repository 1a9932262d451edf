/**
 * The rule-based message classifier.  `Classify` is its specification: it
 * gathers the evidence a message offers (`Gather`) and turns the evidence
 * into a verdict (`Decide`).  `AnalyzeMessage` is the classifier as the
 * handler runs it, step by step over the tables, and is proved to return
 * `Classify(message)`.  The lemmas state what a verdict promises.
 */
module ScamDetection {
  import opened Text
  import opened Regex
  import opened Catalogue

  datatype Classification = Safe | Warning | HighRisk
  {
    /** The order safe < warning < high_risk that the incremental phase only climbs. */
    function Rank(): nat
    {
      match this
      case Safe => 0
      case Warning => 1
      case HighRisk => 2
    }

    /** The string stored with a report. */
    function Name(): string
    {
      match this
      case Safe => "safe"
      case Warning => "warning"
      case HighRisk => "high_risk"
    }
  }

  datatype Analysis = Analysis(
    suspiciousKeywords: nat,
    paymentKeywords: nat,
    safeIndicators: nat,
    hasLinks: bool,
    hasPhoneNumber: bool)

  datatype Verdict = Verdict(
    classification: Classification,
    riskScore: int,
    detectedPatterns: seq<string>,
    analysis: Analysis)

  const HighRiskWeight := 80
  const WarningWeight := 40
  const SafeIndicatorWeight := 20
  const ComboWeight := 30
  const LinkWeight := 25
  const PhoneWeight := 15

  /** Descriptions of the rules whose pattern matches the message, in table order. */
  function Hits(rules: seq<Rule>, message: string): (d: seq<string>)
    ensures |d| <= |rules|
    decreases |rules|
  {
    if rules == [] then []
    else
      var init, last := rules[..|rules| - 1], rules[|rules| - 1];
      Hits(init, message) + if Test(last.pattern, message) then [last.description] else []
  }

  /** The reported descriptions keep table order and name each rule at most once. */
  lemma {:induction false} HitsInOrder(rules: seq<Rule>, message: string)
    ensures IsSubsequence(Hits(rules, message), Descriptions(rules))
    decreases |rules|
  {
    if rules != [] {
      var init, last := rules[..|rules| - 1], rules[|rules| - 1];
      var before := Hits(init, message);
      HitsInOrder(init, message);
      assert Descriptions(rules)[..|rules| - 1] == Descriptions(init);
      if Test(last.pattern, message) {
        assert Hits(rules, message) == before + [last.description];
        assert (before + [last.description])[..|before|] == before;
      } else {
        assert Hits(rules, message) == before;
      }
    }
  }

  /** How many of the keywords occur in the text, each counted once however often it occurs. */
  function CountPresent(keywords: seq<string>, text: string): (n: nat)
    ensures n <= |keywords|
    decreases |keywords|
  {
    if keywords == [] then 0
    else
      var init, last := keywords[..|keywords| - 1], keywords[|keywords| - 1];
      assert keywords == init + [last];
      CountPresent(init, text) + (if Contains(text, last) then 1 else 0)
  }

  /** A rule table reports nothing exactly when none of its patterns matches. */
  lemma {:induction false} HitsEmptyIff(rules: seq<Rule>, message: string)
    ensures Hits(rules, message) == [] <==> forall r :: r in rules ==> !Test(r.pattern, message)
    decreases |rules|
  {
    if rules != [] {
      var init, last := rules[..|rules| - 1], rules[|rules| - 1];
      assert rules == init + [last];
      HitsEmptyIff(init, message);
    }
  }

  /** Running one more rule of a table adds its description exactly when it matches. */
  lemma HitsStep(rules: seq<Rule>, i: int, message: string)
    requires 0 <= i < |rules|
    ensures Hits(rules[..i + 1], message) ==
      Hits(rules[..i], message) + (if Test(rules[i].pattern, message) then [rules[i].description] else [])
  {
    assert rules[..i + 1][..i] == rules[..i];
  }

  /** The score a table adds, rule by rule: `weight` for each rule that matches. */
  function TableScore(rules: seq<Rule>, message: string, weight: int): int
    decreases |rules|
  {
    if rules == [] then 0
    else TableScore(rules[..|rules| - 1], message, weight) + if Test(rules[|rules| - 1].pattern, message) then weight else 0
  }

  lemma TableScoreStep(rules: seq<Rule>, i: int, message: string, weight: int)
    requires 0 <= i < |rules|
    ensures TableScore(rules[..i + 1], message, weight) ==
      TableScore(rules[..i], message, weight) + if Test(rules[i].pattern, message) then weight else 0
  {
    assert rules[..i + 1][..i] == rules[..i];
  }

  /** Adding the weight once per matching rule is the weight times the number of reported rules. */
  lemma {:induction false} TableScoreCountsHits(rules: seq<Rule>, message: string, weight: int)
    ensures TableScore(rules, message, weight) == weight * |Hits(rules, message)|
    decreases |rules|
  {
    if rules != [] {
      var init := rules[..|rules| - 1];
      TableScoreCountsHits(init, message, weight);
      if Test(rules[|rules| - 1].pattern, message) {
        assert weight * (|Hits(init, message)| + 1) == weight * |Hits(init, message)| + weight;
      }
    }
  }

  /** Every rule whose pattern matches is reported: the loops never stop at the first match. */
  lemma {:induction false} HitsMember(rules: seq<Rule>, message: string, r: Rule)
    requires r in rules && Test(r.pattern, message)
    ensures r.description in Hits(rules, message)
    decreases |rules|
  {
    var init, last := rules[..|rules| - 1], rules[|rules| - 1];
    assert rules == init + [last];
    if r != last {
      HitsMember(init, message, r);
    }
  }

  /** Every reported description belongs to a rule of the table whose pattern matches. */
  lemma {:induction false} HitsOnlyMatching(rules: seq<Rule>, message: string, d: string)
    requires d in Hits(rules, message)
    ensures exists r :: r in rules && r.description == d && Test(r.pattern, message)
    decreases |rules|
  {
    var init, last := rules[..|rules| - 1], rules[|rules| - 1];
    assert rules == init + [last];
    if d in Hits(init, message) {
      HitsOnlyMatching(init, message, d);
      var r :| r in init && r.description == d && Test(r.pattern, message);
      assert r in rules;
    } else {
      assert last.description == d && Test(last.pattern, message);
    }
  }

  /** In a table whose descriptions are distinct, a rule is reported exactly when its pattern matches. */
  lemma HitsIff(rules: seq<Rule>, message: string, r: Rule)
    requires Distinct(Descriptions(rules)) && r in rules
    ensures r.description in Hits(rules, message) <==> Test(r.pattern, message)
  {
    if Test(r.pattern, message) {
      HitsMember(rules, message, r);
    }
    if r.description in Hits(rules, message) {
      HitsOnlyMatching(rules, message, r.description);
      var r' :| r' in rules && r'.description == r.description && Test(r'.pattern, message);
      var i :| 0 <= i < |rules| && rules[i] == r;
      var j :| 0 <= j < |rules| && rules[j] == r';
      assert Descriptions(rules)[i] == Descriptions(rules)[j];
    }
  }

  /**
   * In a table whose descriptions are distinct, the number of reported
   * descriptions is the number of rules that match: each one is scored.
   */
  lemma {:induction false} HitsCountsMatchingRules(rules: seq<Rule>, message: string)
    requires Distinct(Descriptions(rules))
    ensures |Hits(rules, message)| == |set r | r in rules && Test(r.pattern, message)|
    decreases |rules|
  {
    if rules == [] {
      assert (set r | r in rules && Test(r.pattern, message)) == {};
    } else {
      var init, last := rules[..|rules| - 1], rules[|rules| - 1];
      assert rules == init + [last];
      assert Descriptions(init) == Descriptions(rules)[..|rules| - 1];
      HitsCountsMatchingRules(init, message);
      forall i | 0 <= i < |init|
        ensures init[i] != last
      {
        assert Descriptions(rules)[i] != Descriptions(rules)[|rules| - 1];
      }
      var before := set r | r in init && Test(r.pattern, message);
      var after := set r | r in rules && Test(r.pattern, message);
      if Test(last.pattern, message) {
        assert after == before + {last};
      } else {
        assert after == before;
      }
    }
  }

  /** No keyword counts exactly when none of them occurs in the text. */
  lemma {:induction false} CountPresentZeroIff(keywords: seq<string>, text: string)
    ensures CountPresent(keywords, text) == 0 <==> forall k :: k in keywords ==> !Contains(text, k)
    decreases |keywords|
  {
    if keywords != [] {
      var init, last := keywords[..|keywords| - 1], keywords[|keywords| - 1];
      assert keywords == init + [last];
      CountPresentZeroIff(init, text);
    }
  }

  /** On a list without repeats the count is the number of distinct keywords present. */
  lemma {:induction false} CountPresentIsDistinctCount(keywords: seq<string>, text: string)
    requires Distinct(keywords)
    ensures CountPresent(keywords, text) == |set k | k in keywords && Contains(text, k)|
    decreases |keywords|
  {
    if keywords == [] {
      assert (set k | k in keywords && Contains(text, k)) == {};
    } else {
      var init, last := keywords[..|keywords| - 1], keywords[|keywords| - 1];
      assert keywords == init + [last];
      CountPresentIsDistinctCount(init, text);
      var before := set k | k in init && Contains(text, k);
      var after := set k | k in keywords && Contains(text, k);
      assert last !in init;
      if Contains(text, last) {
        assert after == before + {last};
      } else {
        assert after == before;
      }
    }
  }

  /** What the tables find in one message, before any score is computed. */
  datatype Evidence = Evidence(
    highRisk: seq<string>,
    warning: seq<string>,
    safeIndicators: nat,
    suspiciousCount: nat,
    paymentCount: nat,
    hasLinks: bool,
    hasPhoneNumber: bool)

  /** Patterns run on the message itself; keywords on its lower-cased copy. */
  function Gather(message: string): Evidence
  {
    var lower := Lower(message);
    Evidence(
      Hits(HighRiskRules, message),
      Hits(WarningRules, message),
      |Hits(SafeIndicatorRules, message)|,
      CountPresent(SuspiciousKeywords, lower),
      CountPresent(PaymentKeywords, lower),
      HasLink(message),
      HasTenDigitToken(message))
  }

  predicate KeywordCombination(e: Evidence)
  {
    e.suspiciousCount >= 2 && e.paymentCount >= 1
  }

  predicate PhoneInContext(e: Evidence)
  {
    e.hasPhoneNumber && e.suspiciousCount > 0
  }

  /** The accumulated score before the final step; it may be negative or above 100. */
  function RawScore(e: Evidence): int
  {
    HighRiskWeight * |e.highRisk| + WarningWeight * |e.warning| - SafeIndicatorWeight * e.safeIndicators
    + (if KeywordCombination(e) then ComboWeight else 0)
    + (if e.hasLinks then LinkWeight else 0)
    + (if PhoneInContext(e) then PhoneWeight else 0)
  }

  /** The classification the incremental phase reaches: the highest tier any signal raised it to. */
  function IncrementalClassification(e: Evidence): Classification
  {
    if e.highRisk != [] then HighRisk
    else if e.warning != [] || KeywordCombination(e) || e.hasLinks then Warning
    else Safe
  }

  function DetectedPatterns(e: Evidence): seq<string>
  {
    e.highRisk + e.warning
    + (if KeywordCombination(e) then [ComboLabel] else [])
    + (if e.hasLinks then [LinkLabel] else [])
    + (if PhoneInContext(e) then [PhoneLabel] else [])
  }

  /** The final step: thresholds on the unclamped score, then the clamp to [0, 100]. */
  function Finalize(raw: int, safeIndicators: nat, incremental: Classification): (r: (Classification, int))
    ensures 0 <= r.1 <= 100
    ensures 0 <= raw <= 100 ==> r.1 == raw
    ensures raw < 0 ==> r.1 == 0
    ensures raw > 100 ==> r.1 == 100
  {
    var c :=
      if raw >= 70 then HighRisk
      else if raw >= 30 then Warning
      else if safeIndicators > 0 || raw < 0 then Safe
      else incremental;
    (c, if raw < 0 then 0 else if raw > 100 then 100 else raw)
  }

  function Decide(e: Evidence): Verdict
  {
    var final := Finalize(RawScore(e), e.safeIndicators, IncrementalClassification(e));
    Verdict(final.0, final.1, DetectedPatterns(e),
      Analysis(e.suspiciousCount, e.paymentCount, e.safeIndicators, e.hasLinks, e.hasPhoneNumber))
  }

  /** The verdict for a message. */
  function Classify(message: string): (v: Verdict)
    ensures 0 <= v.riskScore <= 100
  {
    Decide(Gather(message))
  }

  /** Ranks never decrease along the sequence. */
  predicate Climbs(trace: seq<Classification>)
  {
    forall i, j :: 0 <= i <= j < |trace| ==> trace[i].Rank() <= trace[j].Rank()
  }

  lemma ClimbsStep(trace: seq<Classification>, c: Classification)
    requires trace != [] && Climbs(trace) && trace[|trace| - 1].Rank() <= c.Rank()
    ensures Climbs(trace + [c])
  {
  }

  /** Raising to `to` on a signal: a classification below `to` becomes `to`, a higher one stays. */
  function Upgrade(c: Classification, to: Classification): Classification
  {
    if c.Rank() < to.Rank() then to else c
  }

  /**
   * `start` followed by the classification after each rule of `rules`:
   * a matching rule raises the classification to `to`.
   */
  function RunTable(start: seq<Classification>, rules: seq<Rule>, message: string, to: Classification)
    : (t: seq<Classification>)
    requires start != []
    ensures |t| == |start| + |rules|
    decreases |rules|
  {
    if rules == [] then start
    else
      var before := RunTable(start, rules[..|rules| - 1], message, to);
      var c := before[|before| - 1];
      before + [if Test(rules[|rules| - 1].pattern, message) then Upgrade(c, to) else c]
  }

  /** The classifications after the keyword-combination check and after the link check. */
  function HeuristicSteps(c: Classification, e: Evidence): seq<Classification>
  {
    var afterCombo := if KeywordCombination(e) then Upgrade(c, Warning) else c;
    [afterCombo, if e.hasLinks then Upgrade(afterCombo, Warning) else afterCombo]
  }

  /**
   * The classification the handler holds before its first check and after
   * each check of the incremental phase: every high-risk rule, every
   * warning rule, the keyword combination and the link test.
   */
  function IncrementalTrace(message: string): seq<Classification>
  {
    var tables := RunTable(RunTable([Safe], HighRiskRules, message, HighRisk), WarningRules, message, Warning);
    tables + HeuristicSteps(tables[|tables| - 1], Gather(message))
  }

  lemma {:induction false} RunTableClimbs(start: seq<Classification>, rules: seq<Rule>, message: string,
                                          to: Classification)
    requires start != [] && Climbs(start)
    ensures Climbs(RunTable(start, rules, message, to))
    decreases |rules|
  {
    if rules != [] {
      var before := RunTable(start, rules[..|rules| - 1], message, to);
      RunTableClimbs(start, rules[..|rules| - 1], message, to);
      var c := before[|before| - 1];
      ClimbsStep(before, if Test(rules[|rules| - 1].pattern, message) then Upgrade(c, to) else c);
    }
  }

  /** After a table the classification is raised to `to` exactly when some rule of it matched. */
  lemma {:induction false} RunTableLast(start: seq<Classification>, rules: seq<Rule>, message: string,
                                        to: Classification)
    requires start != []
    ensures var t := RunTable(start, rules, message, to);
      t[|t| - 1] == if Hits(rules, message) == [] then start[|start| - 1] else Upgrade(start[|start| - 1], to)
    decreases |rules|
  {
    if rules != [] {
      RunTableLast(start, rules[..|rules| - 1], message, to);
    }
  }

  /** Running one more rule of a table appends one classification to the trace. */
  lemma RunTableStep(start: seq<Classification>, rules: seq<Rule>, i: int, message: string, to: Classification)
    requires start != [] && 0 <= i < |rules|
    ensures var before := RunTable(start, rules[..i], message, to);
      RunTable(start, rules[..i + 1], message, to) ==
        before + [if Test(rules[i].pattern, message) then Upgrade(before[|before| - 1], to) else before[|before| - 1]]
  {
    assert rules[..i + 1][..i] == rules[..i];
  }

  /** The two heuristic checks extend a climbing trace by two entries and keep it climbing. */
  lemma HeuristicStepsClimb(tables: seq<Classification>, e: Evidence)
    requires tables != [] && Climbs(tables)
    ensures var t := tables + HeuristicSteps(tables[|tables| - 1], e);
      && |t| == |tables| + 2
      && t[0] == tables[0]
      && Climbs(t)
      && t[|t| - 1] == if KeywordCombination(e) || e.hasLinks then Upgrade(tables[|tables| - 1], Warning)
                       else tables[|tables| - 1]
  {
    var steps := HeuristicSteps(tables[|tables| - 1], e);
    ClimbsStep(tables, steps[0]);
    ClimbsStep(tables + [steps[0]], steps[1]);
    assert tables + steps == tables + [steps[0]] + [steps[1]];
  }

  /** The trace shape for any two tables followed by the two heuristic checks. */
  lemma TablesThenHeuristics(highRiskRules: seq<Rule>, warningRules: seq<Rule>, message: string, e: Evidence)
    requires e.highRisk == Hits(highRiskRules, message) && e.warning == Hits(warningRules, message)
    ensures var tables := RunTable(RunTable([Safe], highRiskRules, message, HighRisk), warningRules, message, Warning);
      var t := tables + HeuristicSteps(tables[|tables| - 1], e);
      && |t| == 1 + |highRiskRules| + |warningRules| + 2
      && t[0] == Safe
      && Climbs(t)
      && t[|t| - 1] == IncrementalClassification(e)
  {
    var highRisk := RunTable([Safe], highRiskRules, message, HighRisk);
    var tables := RunTable(highRisk, warningRules, message, Warning);
    RunTablePrefix([Safe], highRiskRules, message, HighRisk);
    RunTablePrefix(highRisk, warningRules, message, Warning);
    RunTableClimbs([Safe], highRiskRules, message, HighRisk);
    RunTableClimbs(highRisk, warningRules, message, Warning);
    RunTableLast([Safe], highRiskRules, message, HighRisk);
    RunTableLast(highRisk, warningRules, message, Warning);
    assert tables[0] == highRisk[0];
    HeuristicStepsClimb(tables, e);
  }

  /**
   * The incremental phase has one entry per check, starts at `safe`, never
   * goes down in rank, and ends at the incremental classification.
   */
  lemma IncrementalTraceClimbs(message: string)
    ensures var t := IncrementalTrace(message);
      && |t| == 1 + |HighRiskRules| + |WarningRules| + 2
      && t[0] == Safe
      && Climbs(t)
      && t[|t| - 1] == IncrementalClassification(Gather(message))
  {
    TablesThenHeuristics(HighRiskRules, WarningRules, message, Gather(message));
  }

  /** Running a table only appends to the trace. */
  lemma {:induction false} RunTablePrefix(start: seq<Classification>, rules: seq<Rule>, message: string,
                                          to: Classification)
    requires start != []
    ensures RunTable(start, rules, message, to)[..|start|] == start
    decreases |rules|
  {
    if rules != [] {
      RunTablePrefix(start, rules[..|rules| - 1], message, to);
    }
  }

  /**
   * The loop the handler runs over a rule table: each matching rule adds
   * `weight` to the score, appends its description and raises the
   * classification to `to`.
   */
  method MatchTable(rules: seq<Rule>, weight: int, to: Classification, message: string,
                    score0: int, detected0: seq<string>, class0: Classification, ghost trace0: seq<Classification>)
    returns (riskScore: int, detected: seq<string>, classification: Classification, ghost trace: seq<Classification>)
    requires trace0 != [] && trace0[|trace0| - 1] == class0
    ensures detected == detected0 + Hits(rules, message)
    ensures riskScore == score0 + weight * |Hits(rules, message)|
    ensures trace == RunTable(trace0, rules, message, to)
    ensures classification == if Hits(rules, message) == [] then class0 else Upgrade(class0, to)
    ensures trace[|trace| - 1] == classification
  {
    riskScore, detected, classification := score0, detected0, class0;
    trace := trace0;
    for i := 0 to |rules|
      invariant detected == detected0 + Hits(rules[..i], message)
      invariant riskScore == score0 + TableScore(rules[..i], message, weight)
      invariant trace == RunTable(trace0, rules[..i], message, to)
      invariant trace[|trace| - 1] == classification
    {
      var rule := rules[i];
      ghost var hitsBefore, classBefore := Hits(rules[..i], message), classification;
      HitsStep(rules, i, message);
      TableScoreStep(rules, i, message, weight);
      RunTableStep(trace0, rules, i, message, to);
      if Test(rule.pattern, message) {
        riskScore := riskScore + weight;
        detected := detected + [rule.description];
        assert detected == detected0 + (hitsBefore + [rule.description]);
        if classification.Rank() < to.Rank() {
          classification := to;
        }
      }
      assert classification == if Test(rule.pattern, message) then Upgrade(classBefore, to) else classBefore;
      trace := trace + [classification];
    }
    assert rules[..|rules|] == rules;
    RunTableLast(trace0, rules, message, to);
    TableScoreCountsHits(rules, message, weight);
  }

  /** Lines of the handler that run every high-risk rule: +80 and `high_risk` per match. */
  method MatchHighRisk(message: string)
    returns (riskScore: int, detected: seq<string>, classification: Classification, ghost trace: seq<Classification>)
    ensures detected == Hits(HighRiskRules, message)
    ensures riskScore == HighRiskWeight * |detected|
    ensures classification == if detected == [] then Safe else HighRisk
    ensures trace == RunTable([Safe], HighRiskRules, message, HighRisk)
    ensures trace[|trace| - 1] == classification
  {
    riskScore, detected, classification, trace := MatchTable(HighRiskRules, HighRiskWeight, HighRisk, message, 0, [], Safe, [Safe]);
  }

  /** Lines of the handler that run every warning rule: +40 per match, `safe` becomes `warning`. */
  method MatchWarning(message: string, score0: int, detected0: seq<string>, class0: Classification,
                      ghost trace0: seq<Classification>)
    returns (riskScore: int, detected: seq<string>, classification: Classification, ghost trace: seq<Classification>)
    requires trace0 != [] && trace0[|trace0| - 1] == class0
    ensures detected == detected0 + Hits(WarningRules, message)
    ensures riskScore == score0 + WarningWeight * |Hits(WarningRules, message)|
    ensures classification == if class0 == Safe && Hits(WarningRules, message) != [] then Warning else class0
    ensures trace == RunTable(trace0, WarningRules, message, Warning)
    ensures trace[|trace| - 1] == classification
  {
    riskScore, detected, classification, trace := MatchTable(WarningRules, WarningWeight, Warning, message, score0, detected0, class0, trace0);
  }

  /** Lines of the handler that count the safe indicators that match. */
  method CountSafeIndicators(message: string, score0: int) returns (safeIndicators: nat, riskScore: int)
    ensures safeIndicators == |Hits(SafeIndicatorRules, message)|
    ensures riskScore == score0 - SafeIndicatorWeight * safeIndicators
  {
    safeIndicators, riskScore := 0, score0;
    for i := 0 to |SafeIndicatorRules|
      invariant safeIndicators == |Hits(SafeIndicatorRules[..i], message)|
      invariant riskScore == score0 - TableScore(SafeIndicatorRules[..i], message, SafeIndicatorWeight)
    {
      if Test(SafeIndicatorRules[i].pattern, message) {
        safeIndicators := safeIndicators + 1;
        riskScore := riskScore - SafeIndicatorWeight;
      }
      HitsStep(SafeIndicatorRules, i, message);
      TableScoreStep(SafeIndicatorRules, i, message, SafeIndicatorWeight);
    }
    assert SafeIndicatorRules[..|SafeIndicatorRules|] == SafeIndicatorRules;
    TableScoreCountsHits(SafeIndicatorRules, message, SafeIndicatorWeight);
  }

  /** The final reclassification on the unclamped score and the clamp. */
  method FinalClassification(riskScore: int, safeIndicators: nat, classification: Classification)
    returns (c: Classification, score: int)
    ensures (c, score) == Finalize(riskScore, safeIndicators, classification)
  {
    c, score := classification, riskScore;
    if score >= 70 {
      c := HighRisk;
    } else if score >= 30 {
      c := Warning;
    } else if safeIndicators > 0 || score < 0 {
      c := Safe;
      score := if score < 0 then 0 else score;
    }
    score := if score > 100 then 100 else if score < 0 then 0 else score;
  }

  /** Lines of the handler that apply the keyword-combination, link and phone-number heuristics. */
  method ApplyHeuristics(ghost e: Evidence, score0: int, detected0: seq<string>, class0: Classification,
                         ghost trace0: seq<Classification>,
                         suspiciousCount: nat, paymentCount: nat, hasLinks: bool, hasPhoneNumber: bool)
    returns (riskScore: int, detected: seq<string>, classification: Classification, ghost trace: seq<Classification>)
    requires e.suspiciousCount == suspiciousCount && e.paymentCount == paymentCount
    requires e.hasLinks == hasLinks && e.hasPhoneNumber == hasPhoneNumber
    requires detected0 == e.highRisk + e.warning
    requires score0 == HighRiskWeight * |e.highRisk| + WarningWeight * |e.warning| - SafeIndicatorWeight * e.safeIndicators
    requires class0 == if e.highRisk != [] then HighRisk else if e.warning != [] then Warning else Safe
    ensures riskScore == RawScore(e)
    ensures detected == DetectedPatterns(e)
    ensures classification == IncrementalClassification(e)
    ensures trace == trace0 + HeuristicSteps(class0, e)
  {
    riskScore, detected, classification, trace := score0, detected0, class0, trace0;
    if suspiciousCount >= 2 && paymentCount >= 1 {
      riskScore := riskScore + ComboWeight;
      detected := detected + [ComboLabel];
      if classification == Safe {
        classification := Warning;
      }
    }
    trace := trace + [classification];

    if hasLinks {
      riskScore := riskScore + LinkWeight;
      detected := detected + [LinkLabel];
      if classification == Safe {
        classification := Warning;
      }
    }
    trace := trace + [classification];

    if hasPhoneNumber && suspiciousCount > 0 {
      riskScore := riskScore + PhoneWeight;
      detected := detected + [PhoneLabel];
    }
  }

  /**
   * The handler: the three rule tables, then the keyword, link and
   * phone-number heuristics, then the final thresholds and the clamp.
   * `trace` records the classification before the first check and after
   * every check of the incremental phase.
   */
  method AnalyzeMessage(message: string) returns (v: Verdict, ghost trace: seq<Classification>)
    ensures v == Classify(message)
    ensures trace == IncrementalTrace(message)
    ensures |trace| == 1 + |HighRiskRules| + |WarningRules| + 2 && trace[0] == Safe && Climbs(trace)
    ensures trace[|trace| - 1] == IncrementalClassification(Gather(message))
  {
    var lower := Lower(message);
    var riskScore, detected, classification;
    riskScore, detected, classification, trace := MatchHighRisk(message);
    riskScore, detected, classification, trace := MatchWarning(message, riskScore, detected, classification, trace);
    var safeIndicators;
    safeIndicators, riskScore := CountSafeIndicators(message, riskScore);

    var suspiciousCount := CountPresent(SuspiciousKeywords, lower);
    var paymentCount := CountPresent(PaymentKeywords, lower);
    ghost var e := Gather(message);
    riskScore, detected, classification, trace := ApplyHeuristics(e, riskScore, detected, classification, trace,
      suspiciousCount, paymentCount, HasLink(message), HasTenDigitToken(message));
    IncrementalTraceClimbs(message);

    var c, score := FinalClassification(riskScore, safeIndicators, classification);
    // The analysis record runs the link and ten-digit tests once more.
    v := Verdict(c, score, detected,
      Analysis(suspiciousCount, paymentCount, safeIndicators, HasLink(message), HasTenDigitToken(message)));
  }
}
