/** The two mappings of an analysis card
    (src/components/dashboard/analysis-result-card.tsx): the verdict badge's
    style and the colour of the relevance bar. */
module ResultCard {
  import opened Text
  import Analytics

  /** The badge styles the card uses. */
  datatype BadgeVariant = Default | Secondary | Destructive | Outline

  /** `getVerdictVariant`: the verdict is compared after lower-casing. */
  function VerdictVariant(verdict: string): (variant: BadgeVariant)
    ensures Lower(verdict) == "high" ==> variant == Default
    ensures Lower(verdict) == "medium" ==> variant == Secondary
    ensures Lower(verdict) == "low" ==> variant == Destructive
    ensures variant != Outline <==> Lower(verdict) in ["high", "medium", "low"]
  {
    var key := Lower(verdict);
    if key == "high" then Default
    else if key == "medium" then Secondary
    else if key == "low" then Destructive
    else Outline
  }

  /** The badge does not depend on the verdict's case. */
  lemma VerdictVariantIgnoresCase(a: string, b: string)
    requires Lower(a) == Lower(b)
    ensures VerdictVariant(a) == VerdictVariant(b)
  {
  }

  /** Any spelling of High, Medium and Low gets its own badge. */
  lemma VerdictVariantExamples()
    ensures VerdictVariant("High") == Default && VerdictVariant("HIGH") == Default
    ensures VerdictVariant("Medium") == Secondary && VerdictVariant("medium") == Secondary
    ensures VerdictVariant("Low") == Destructive && VerdictVariant("LOW") == Destructive
    ensures VerdictVariant("Unknown") == Outline
  {
    assert Lower("High") == "high" && Lower("HIGH") == "high";
    assert Lower("Medium") == "medium" && Lower("medium") == "medium";
    assert Lower("Low") == "low" && Lower("LOW") == "low";
    assert Lower("Unknown") == "unknown";
  }

  /** The badge accepts "high" where the verdict chart does not count it:
      the card compares case-insensitively, the chart exactly. */
  lemma BadgeAndChartDisagreeOnCase()
    ensures VerdictVariant("high") == Default
    ensures "high" !in Analytics.TALLIED_VERDICTS
  {
    assert Lower("high") == "high";
    assert "high"[0] != "High"[0];
  }

  /** Bar colours. */
  datatype ProgressColor = Green | Yellow | Red

  /** `getProgressColor`. */
  function ProgressColorFor(score: int): (color: ProgressColor)
    ensures color == Green <==> score > 75
    ensures color == Red <==> score <= 50
  {
    if score > 75 then Green
    else if score > 50 then Yellow
    else Red
  }

  function ColorRank(color: ProgressColor): nat {
    match color
    case Red => 0
    case Yellow => 1
    case Green => 2
  }

  /** A higher score never gets a worse colour. */
  lemma ProgressColorMonotone(a: int, b: int)
    requires a <= b
    ensures ColorRank(ProgressColorFor(a)) <= ColorRank(ProgressColorFor(b))
  {
  }

  /** The colour bands line up with the histogram's bins: the two lower
      bins are red, the third yellow, the top one green. */
  lemma ProgressColorMatchesBins(score: int)
    ensures ProgressColorFor(score) == Red <==> Analytics.BinOf(score) <= 1
    ensures ProgressColorFor(score) == Yellow <==> Analytics.BinOf(score) == 2
    ensures ProgressColorFor(score) == Green <==> Analytics.BinOf(score) == 3
  {
  }
}
