/**
 * The static tables the classifier reads: the pattern catalogue in its three
 * categories, the two keyword lists, the link and phone-number tests and the
 * labels of the three heuristics.  Nothing here changes at run time.
 */
module Catalogue {
  import opened Text
  import opened Regex

  /** A catalogue entry: a pattern and the label reported when it matches. */
  datatype Rule = Rule(pattern: Pattern, description: string)

  /** A rupee sign followed by a digit. */
  const RupeeDigit: Segment := Lit("\U{20B9}") + [Digit]

  const HighRiskRules: seq<Rule> := [
    Rule([Lit("scan"), Lit("to"), Lit("receive"), Lit("cashback")], "Fake cashback scan trap"),
    Rule([Lit("refund"), Lit("credited"), Lit("verify")], "Fake refund verification scam"),
    Rule([Lit("congratulations"), Lit("won"), Lit("scan")], "Fake lottery/prize scam"),
    Rule([Lit("urgent"), Lit("verify"), Lit("account")], "Account verification phishing"),
    Rule([Lit("click"), Lit("link"), Lit("claim"), Lit("reward")], "Reward claim phishing"),
    Rule([Lit("pay"), Lit("\U{20B9}1"), Lit("get"), RupeeDigit], "Pay small amount scam"),
    Rule([Lit("kbc"), Lit("winner"), Lit("scan")], "KBC lottery scam"),
    Rule([Lit("government"), Lit("subsidy"), Lit("verify")], "Fake government scheme")
  ]

  const WarningRules: seq<Rule> := [
    Rule([Lit("cashback"), Lit("pay")], "Suspicious cashback offer"),
    Rule([Lit("reward"), Lit("upi")], "UPI reward scheme"),
    Rule([Lit("verify"), Lit("payment")], "Payment verification request"),
    Rule([Lit("update"), Lit("kyc")], "KYC update request"),
    Rule([Lit("limited"), Lit("time"), Lit("offer")], "Urgency-based offer"),
    Rule([Lit("scan"), Lit("qr"), Lit("code")], "QR code scan request")
  ]

  const SafeIndicatorRules: seq<Rule> := [
    Rule([Lit("received"), RupeeDigit, Lit("from")], "Payment received confirmation"),
    Rule([Lit("paid"), RupeeDigit, Lit("to")], "Payment sent confirmation"),
    Rule([Lit("transaction"), Lit("successful")], "Transaction success message"),
    Rule([Lit("balance"), RupeeDigit], "Balance inquiry response")
  ]

  /** Lower-case tokens that raise suspicion when several appear together. */
  const SuspiciousKeywords: seq<string> := [
    "scan", "verify", "claim", "reward", "cashback", "refund", "winner",
    "congratulations", "urgent", "limited time", "expire", "activate"
  ]

  /** Lower-case tokens that place a message in a payment context. */
  const PaymentKeywords: seq<string> := ["pay", "upi", "paytm", "gpay", "phonepe", "\U{20B9}", "rupees"]

  const ComboLabel: string := "Multiple suspicious keywords with payment context"
  const LinkLabel: string := "Contains external links"
  const PhoneLabel: string := "Phone number in suspicious context"

  /** The link test: `http://`, `https://`, `bit.ly` or `tinyurl` anywhere, ignoring case. */
  predicate HasLink(msg: string)
  {
    Test([Lit("http://")], msg) || Test([Lit("https://")], msg) ||
    Test([Lit("bit.ly")], msg) || Test([Lit("tinyurl")], msg)
  }

  /** The phone-number test: exactly ten digits with no word character on either side. */
  predicate HasTenDigitToken(msg: string)
  {
    exists i | 0 <= i <= |msg| - 10 :: TenDigitTokenAt(msg, i)
  }

  predicate TenDigitTokenAt(msg: string, i: int)
  {
    0 <= i && i + 10 <= |msg| &&
    (forall k :: i <= k < i + 10 ==> IsDigit(msg[k])) &&
    (i == 0 || !IsWordChar(msg[i - 1])) &&
    (i + 10 == |msg| || !IsWordChar(msg[i + 10]))
  }

  function Descriptions(rules: seq<Rule>): seq<string>
  {
    seq(|rules|, i requires 0 <= i < |rules| => rules[i].description)
  }

  /** Every label the classifier can report, in the order it checks for them. */
  function AllLabels(): seq<string>
  {
    Descriptions(HighRiskRules) + Descriptions(WarningRules) + [ComboLabel, LinkLabel, PhoneLabel]
  }

  predicate Distinct<T(==)>(xs: seq<T>)
  {
    forall i, j :: 0 <= i < j < |xs| ==> xs[i] != xs[j]
  }

  /** Both keyword lists name each keyword once. */
  lemma KeywordListsDistinct()
    ensures Distinct(SuspiciousKeywords) && |SuspiciousKeywords| == 12
    ensures Distinct(PaymentKeywords) && |PaymentKeywords| == 7
  {
  }

  lemma KeywordsNotEmpty()
    ensures forall k :: k in SuspiciousKeywords + PaymentKeywords ==> k != ""
  {
  }

  /**
   * The three heuristic labels differ from each other and from every rule
   * description, and no safe-indicator description is a reportable label.
   */
  lemma LabelsSeparate()
    ensures |AllLabels()| == 17
    ensures ComboLabel != LinkLabel && ComboLabel != PhoneLabel && LinkLabel != PhoneLabel
    ensures forall d :: d in Descriptions(HighRiskRules) + Descriptions(WarningRules) ==>
      d != ComboLabel && d != LinkLabel && d != PhoneLabel
    ensures forall d :: d in Descriptions(SafeIndicatorRules) ==> d !in AllLabels()
  {
  }

  /**
   * No description is used twice in a table, and no high-risk description
   * is also a warning description, so each reported description names one rule.
   */
  lemma DescriptionsDistinct()
    ensures Distinct(Descriptions(HighRiskRules))
    ensures Distinct(Descriptions(WarningRules))
    ensures Distinct(Descriptions(SafeIndicatorRules))
    ensures forall d :: d in Descriptions(HighRiskRules) ==> d !in Descriptions(WarningRules)
  {
  }

  /** Every catalogue pattern starts with a non-empty run, so none matches the empty message. */
  lemma PatternsNeedText()
    ensures forall r :: r in HighRiskRules + WarningRules + SafeIndicatorRules ==>
      r.pattern != [] && r.pattern[0] != []
  {
    var all := HighRiskRules + WarningRules + SafeIndicatorRules;
    forall i | 0 <= i < |all|
      ensures all[i].pattern != [] && all[i].pattern[0] != []
    {
      var first := all[i].pattern[0];
      assert first[0] == Ch(first[0].c);
    }
  }
}
