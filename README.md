# UPI scam-message classifier, modelled and verified in Dafny

This project models the rule-based classifier of a UPI payment-message scam
detector. Given a message, the classifier returns:

- a classification: `safe`, `warning` or `high_risk`;
- a risk score from 0 to 100;
- the ordered list of rule descriptions and heuristic labels it detected;
- an analysis record: keyword counts, safe-indicator count, link and phone flags.

The project also models the counting step of the recent-report statistics.

Files and modules:

- `Text.dfy` (`Text`): ASCII case folding, the character classes `\d`, `\w`
  and line terminators, substring containment, and subsequences.
- `Regex.dfy` (`Regex`): the fragment of JavaScript regular expressions that
  the catalogue uses. A pattern `s1.*s2.*...*sn` with the `i` flag is a list of
  runs. The runs must occur in order, and the gaps between them must not
  contain a line terminator, since `.` does not match one. `Test` is this
  existence semantics stated directly.
- `Catalogue.dfy` (`Catalogue`): the three rule tables, the two keyword lists,
  the link and ten-digit tests and the three heuristic labels. They are copied
  from the source with the same order and text. The weights are constants in
  `ScamDetection`.
- `ScamDetection.dfy` (`ScamDetection`): the specification and the classifier.
  - `Gather` collects the evidence a message offers.
  - `Decide` turns evidence into a verdict.
  - `Classify` is `Decide(Gather(message))`.
  - `AnalyzeMessage` is the handler as written: loops over the tables (the
    safe-indicator loop subtracts 20 per match as it counts), the three
    heuristics, the final thresholds and the clamp. The analysis record runs
    the link and ten-digit tests again, as the source does. Each loop, the
    heuristic block and the final step are helper methods with their own
    contracts. `AnalyzeMessage` is proved to return `Classify(message)`.
  - `MatchTable` is the loop the handler runs over a rule table; the
    high-risk and warning phases call it with their table, weight and tier.
  - A ghost trace records the classification before the first check and
    after each rule check and each classifying heuristic (16 in all). It equals the
    specification `IncrementalTrace`, which is proved never to decrease.
- `VerdictProperties.dfy` (`VerdictProperties`): properties of every verdict.
- `ScamStats.dfy` (`ScamStats`): the statistics over a list of stored
  classification strings.

The classifier is a function of the message alone, so two calls with the same
message give the same verdict.

From 30 up, the final step decides on the unclamped score alone
(convex/scamDetection.ts:107-115). Below 30 it gives `safe` when a safe
indicator matched or the score is negative. Otherwise it keeps the
classification the earlier checks reached. It never looks at which rules
matched. So a message that matched a high-risk rule ends below `high_risk`
when safe indicators pull its score under 70. `ClassificationMatchesScore` shows that
`high_risk` holds exactly when the score is at least 70.

## Model

| member | source | states |
|---|---|---|
| `Regex.TestIgnoresCase` | convex/scamDetection.ts:8-29 | The `i` flag: every pattern gives the same answer on a message and on its lower-cased copy |
| `Catalogue.KeywordListsDistinct` | convex/scamDetection.ts:34-39 | The suspicious list holds 12 distinct keywords and the payment list 7 |
| `Catalogue.LabelsSeparate` | convex/scamDetection.ts:6-31 | There are 17 reportable labels. The three heuristic labels differ from each other and from every rule description. No safe-indicator description is a reportable label |
| `Catalogue.DescriptionsDistinct` | convex/scamDetection.ts:6-31 | No table repeats a description, and no high-risk description is also a warning description |
| `Catalogue.PatternsNeedText` | convex/scamDetection.ts:6-31 | Every catalogue pattern starts with a non-empty run |
| `ScamDetection.Hits` | convex/scamDetection.ts:52-67 | A table reports at most one description per rule |
| `ScamDetection.HitsInOrder` | convex/scamDetection.ts:52-67 | The reported descriptions are a subsequence of the table's descriptions: table order, each at most once |
| `ScamDetection.HitsMember` | convex/scamDetection.ts:52-67 | Every rule whose pattern matches is reported; the loop does not stop at the first match |
| `ScamDetection.HitsOnlyMatching` | convex/scamDetection.ts:52-67 | Every reported description belongs to a rule of the table whose pattern matches |
| `ScamDetection.HitsIff` | convex/scamDetection.ts:52-67 | In a table with distinct descriptions, a rule is reported exactly when its pattern matches |
| `ScamDetection.HitsCountsMatchingRules` | convex/scamDetection.ts:52-76 | In a table with distinct descriptions, the number of reported descriptions is the number of matching rules |
| `ScamDetection.TableScoreCountsHits` | convex/scamDetection.ts:52-67 | Adding the weight once per matching rule equals the weight times the number of reported rules |
| `ScamDetection.HitsEmptyIff` | convex/scamDetection.ts:51-76 | A table reports nothing exactly when none of its patterns matches |
| `ScamDetection.CountPresent` | convex/scamDetection.ts:79-85 | A keyword count never exceeds the length of its list |
| `ScamDetection.CountPresentZeroIff` | convex/scamDetection.ts:79-85 | A keyword count is 0 exactly when no keyword of the list occurs in the lower-cased message |
| `ScamDetection.CountPresentIsDistinctCount` | convex/scamDetection.ts:79-85 | On a list without repeats, the count equals the number of distinct keywords present, not the number of occurrences |
| `ScamDetection.Finalize` | convex/scamDetection.ts:107-118 | The returned score lies in [0, 100]. It equals the raw score when that is in range, 0 below and 100 above |
| `ScamDetection.Classify` | convex/scamDetection.ts:117-118 | The verdict's score is between 0 and 100 for every message |
| `ScamDetection.MatchTable` | convex/scamDetection.ts:51-67 | The table loop appends the matching descriptions in order and adds the weight once per match. The tier is raised exactly when something matched. One trace entry is appended per rule |
| `ScamDetection.MatchHighRisk` | convex/scamDetection.ts:51-58 | After the high-risk loop: the labels are the matching descriptions in table order, the score is 80 per match, and the class is `high_risk` exactly when something matched. The trace has one entry per rule |
| `ScamDetection.MatchWarning` | convex/scamDetection.ts:60-67 | After the warning loop: matching descriptions are appended in order and 40 is added per match. `safe` becomes `warning` only on a match. The trace gains one entry per rule |
| `ScamDetection.CountSafeIndicators` | convex/scamDetection.ts:69-76 | The safe-indicator loop counts the safe rules that match and subtracts 20 from the score for each of them |
| `ScamDetection.ApplyHeuristics` | convex/scamDetection.ts:87-105 | After the table phases, the combination (+30), link (+25) and phone (+15) checks produce exactly the specification's raw score, labels and incremental classification. The trace gains the two classifications after the combination and link checks |
| `ScamDetection.FinalClassification` | convex/scamDetection.ts:107-118 | The thresholds and the clamp as written give the same result as `Finalize` |
| `ScamDetection.IncrementalTraceClimbs` | convex/scamDetection.ts:46-100 | The classification before the checks, after each of the 14 rule checks and after the combination and link checks starts at `safe`, never decreases in rank, and ends at the incremental classification |
| `ScamDetection.AnalyzeMessage` | convex/scamDetection.ts:41-133 | The handler returns `Classify(message)`. Its trace is exactly `IncrementalTrace(message)`: 17 entries, starting at `safe`, never decreasing, ending at the incremental classification |
| `VerdictProperties.QuietMessageIsSafe` | convex/scamDetection.ts:41-133 | A message with no rule, keyword, link or ten-digit match yields `safe`, score 0, no labels, zero counters and false flags |
| `VerdictProperties.EmptyMessageIsSafe` | convex/scamDetection.ts:47-49 | The empty message yields `safe`, score 0, no labels, zero counters and false flags |
| `VerdictProperties.ClassificationMatchesScore` | convex/scamDetection.ts:107-118 | `high_risk` holds exactly when the score is at least 70, and a score of 30 to 69 gives `warning`. Below 30, any safe indicator gives `safe`. `safe` implies a score below 30. A `warning` below 30 occurs exactly when the score is 25 and the only label is the link label |
| `VerdictProperties.LowScoreKeepsIncremental` | convex/scamDetection.ts:107-116 | With no safe indicator the unclamped score is never negative. Below 30 with no safe indicator, the final step keeps the classification the checks reached |
| `VerdictProperties.AnalysisFlagsAreTheTests` | convex/scamDetection.ts:128-129 | The analysis's `hasLinks` and `hasPhoneNumber` are the link test and the ten-digit token test on the message |
| `VerdictProperties.BarePhoneNumberIsNotReported` | convex/scamDetection.ts:101-105 | A ten-digit number without a suspicious keyword sets `hasPhoneNumber` but adds no phone label |
| `VerdictProperties.LinkAloneWarns` | convex/scamDetection.ts:94-118 | A message with no rule match, no suspicious keyword and a link ends as `warning` with score 25 and only the link label |
| `VerdictProperties.EvidenceLabelsInOrder` | convex/scamDetection.ts:52-105 | The labels follow the check order: high-risk descriptions, warning descriptions, then the combination, link and phone labels |
| `VerdictProperties.DetectedPatternsOrdered` | convex/scamDetection.ts:52-105 | `detectedPatterns` is a subsequence of the 17 labels in check order. It has at most 17 entries and never contains a safe-indicator description |
| `VerdictProperties.HeuristicLabelsMatchAnalysis` | convex/scamDetection.ts:87-129 | The combination label appears exactly when suspicious ≥ 2 and payment ≥ 1. The link label appears exactly when `hasLinks` holds. The phone label appears exactly when `hasPhoneNumber` holds and a suspicious keyword is present |
| `VerdictProperties.AnalysisCountsDistinctEntries` | convex/scamDetection.ts:69-85 | The keyword counters count distinct keywords present, at most 12 and 7. The safe-indicator counter is the number of matching safe rules: at most 4, and 0 exactly when no safe pattern matches |
| `VerdictProperties.EveryMatchingRuleReported` | convex/scamDetection.ts:51-67 | A high-risk or warning rule's description is in `detectedPatterns` exactly when its pattern matches |
| `VerdictProperties.ScoreCountsEveryMatch` | convex/scamDetection.ts:51-118 | The score is the clamp to [0, 100] of 80 per matching high-risk rule, 40 per matching warning rule, −20 per matching safe rule, plus 30, 25 and 15 for the heuristics that fire |
| `VerdictProperties.HighRiskMatchWithoutSafeIndicator` | convex/scamDetection.ts:51-58 | A matching high-risk rule with no safe indicator gives `high_risk` with a score of at least 80 |
| `VerdictProperties.KeywordCombinationAloneWarns` | convex/scamDetection.ts:87-92 | Two distinct suspicious keywords and a payment keyword, with no safe indicator, give at least `warning`, a score of at least 30 and the combination label |
| `VerdictProperties.ConfirmationIsSafe` | convex/scamDetection.ts:69-76 | A matching safe indicator, with no high-risk or warning rule, no link and no combination, gives `safe` with score 0. Only the phone label can still appear |
| `VerdictProperties.HitsIgnoreCase` | convex/scamDetection.ts:51-67 | The descriptions a table reports are the same for a message and its lower-cased copy |
| `VerdictProperties.TenDigitTokenIgnoresCase` | convex/scamDetection.ts:102 | The ten-digit token test gives the same answer on a message and its lower-cased copy |
| `VerdictProperties.ClassifyIgnoresCase` | convex/scamDetection.ts:46-95 | The whole verdict is the same for a message and its lower-cased copy |
| `ScamStats.CountOf` | convex/scamDetection.ts:177-179 | A bucket count never exceeds the number of reports |
| `ScamStats.CountOfIsMultiplicity` | convex/scamDetection.ts:177-179 | Each bucket count is the number of entries equal to its classification string |
| `ScamStats.BucketsWithinTotal` | convex/scamDetection.ts:175-180 | highRisk + warning + safe ≤ total, with equality when every entry is one of the three strings |
| `ScamStats.RecentScamStats` | convex/scamDetection.ts:175-180 | The total is the number of reports. The three buckets add up to at most the total, and to exactly the total when every entry is a valid classification |
| `ScamStats.RecordingOneVerdict` | convex/scamDetection.ts:175-180 | Appending one stored verdict adds one to the total and to its own bucket, and nothing to the other buckets |

## Left out

- Persistence and identity are not modelled: `saveScamReport`, `getUserReports`, and the query in `getRecentScamStats` (ordering, `take(100)`). They are database, authentication and clock calls. The statistics are modelled over a given list of classification strings.
- The action wrapper and argument validators are not modelled. The handler body is synchronous, so `AnalyzeMessage` is a plain method.
- Case folding is ASCII-only. For the `i` flag this is exact, because without the `u` flag JavaScript never folds a non-ASCII character to an ASCII one, and every pattern is ASCII apart from the rupee sign. For `toLowerCase` in the keyword counts it is not exact. The Kelvin sign (U+212A) lowers to `k` in JavaScript, so a message spelling "cashback" with it counts a keyword there and not here. The capital I with dot (U+0130) lowers to `i` followed by U+0307, so "UPİ" counts the payment keyword "upi" there and not here.
- Characters are Unicode scalar values, not UTF-16 code units. No pattern, keyword or test touches characters outside the Basic Multilingual Plane, so no verdict changes.
- The regular-expression engine is not modelled; its performance (backtracking) is left out too. `Test` states what a match is, not how an engine searches for one. `\d+` is written as a single `\d`. This is exact in this catalogue, because `\d+` is always followed by `.*` or by the end of the pattern.
- The React interface is not part of this model. That includes trimming the message before it is sent, the toasts and the colour and icon mappings.
- The stored `scamPatterns` table of the schema is not part of this model, because the classifier never reads it.
