/**
 * The counting step of the recent-report statistics: the classifications
 * of the fetched reports are bucketed into a total and one count per
 * classification.  Fetching the reports is not part of this model.
 */
module ScamStats {
  import opened ScamDetection

  datatype Stats = Stats(total: nat, highRisk: nat, warning: nat, safe: nat)

  /** How many of the classifications are exactly `name`. */
  function CountOf(classifications: seq<string>, name: string): (n: nat)
    ensures n <= |classifications|
    decreases |classifications|
  {
    if classifications == [] then 0
    else
      var init, last := classifications[..|classifications| - 1], classifications[|classifications| - 1];
      CountOf(init, name) + (if last == name then 1 else 0)
  }

  /** Each count is the number of entries equal to the name it counts. */
  lemma {:induction false} CountOfIsMultiplicity(classifications: seq<string>, name: string)
    ensures CountOf(classifications, name) == multiset(classifications)[name]
    decreases |classifications|
  {
    if classifications != [] {
      var init, last := classifications[..|classifications| - 1], classifications[|classifications| - 1];
      assert classifications == init + [last];
      CountOfIsMultiplicity(init, name);
    }
  }

  /** One of the three strings a verdict's classification is stored as. */
  predicate IsClassificationName(s: string)
  {
    s == HighRisk.Name() || s == Warning.Name() || s == Safe.Name()
  }

  lemma {:induction false} BucketsWithinTotal(classifications: seq<string>)
    ensures CountOf(classifications, HighRisk.Name()) + CountOf(classifications, Warning.Name())
            + CountOf(classifications, Safe.Name()) <= |classifications|
    ensures (forall i :: 0 <= i < |classifications| ==> IsClassificationName(classifications[i])) ==>
            CountOf(classifications, HighRisk.Name()) + CountOf(classifications, Warning.Name())
            + CountOf(classifications, Safe.Name()) == |classifications|
    decreases |classifications|
  {
    if classifications != [] {
      var init := classifications[..|classifications| - 1];
      BucketsWithinTotal(init);
      assert forall i :: 0 <= i < |init| ==> init[i] == classifications[i];
    }
  }

  /** The statistics over the classifications of the fetched reports. */
  function RecentScamStats(classifications: seq<string>): (s: Stats)
    ensures s.total == |classifications|
    ensures s.highRisk + s.warning + s.safe <= s.total
    ensures (forall i :: 0 <= i < |classifications| ==> IsClassificationName(classifications[i])) ==>
            s.highRisk + s.warning + s.safe == s.total
  {
    BucketsWithinTotal(classifications);
    Stats(
      |classifications|,
      CountOf(classifications, HighRisk.Name()),
      CountOf(classifications, Warning.Name()),
      CountOf(classifications, Safe.Name()))
  }

  /** One more stored verdict adds one to the total and to its own bucket only. */
  lemma RecordingOneVerdict(classifications: seq<string>, c: Classification)
    ensures var before, after := RecentScamStats(classifications), RecentScamStats(classifications + [c.Name()]);
      && after.total == before.total + 1
      && after.highRisk == before.highRisk + (if c == HighRisk then 1 else 0)
      && after.warning == before.warning + (if c == Warning then 1 else 0)
      && after.safe == before.safe + (if c == Safe then 1 else 0)
  {
    var after := classifications + [c.Name()];
    assert after[..|after| - 1] == classifications;
  }
}
