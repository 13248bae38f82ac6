/**
 * The end-of-game summary every game shows: the percentage of the score over
 * the total, rounded to the nearest integer (halves upwards, as Math.round
 * does), and a message chosen by that percentage.
 */
module ScoreSummary {

  const GoodEffortMessage: string := "Good effort! Keep practicing."
  const GreatJobMessage: string := "Great job! You're getting really good."
  const ExcellentMessage: string := "Excellent work! You're a grammar master!"

  /**
   * Math.round(score / total * 100) for a positive total, 0 otherwise.  With
   * exact arithmetic, round(x) = floor(x + 1/2) and x = 100 * score / total, so
   * the result is the integer r with r - 1/2 <= 100 * score / total < r + 1/2.
   */
  function Percentage(score: int, total: int): (r: int)
    ensures total <= 0 ==> r == 0
    ensures total > 0 ==> (2 * r - 1) * total <= 200 * score < (2 * r + 1) * total
  {
    if total > 0 then (200 * score + total) / (2 * total) else 0
  }

  lemma MulMonotone(a: int, b: int, t: int)
    requires a <= b && t > 0
    ensures a * t <= b * t
  {
  }

  /** A score between 0 and the total gives a percentage between 0 and 100. */
  lemma PercentageRange(score: int, total: int)
    requires 0 <= score <= total
    ensures 0 <= Percentage(score, total) <= 100
  {
    if total > 0 {
      var r := Percentage(score, total);
      if r < 0 {
        MulMonotone(2 * r + 1, 0, total);
      }
      if r > 100 {
        MulMonotone(201, 2 * r - 1, total);
      }
    }
  }

  /** A full score is 100 percent and a zero score is 0 percent. */
  lemma PercentageExtremes(total: int)
    requires total > 0
    ensures Percentage(total, total) == 100
    ensures Percentage(0, total) == 0
  {
    var r := Percentage(total, total);
    if r < 100 { MulMonotone(2 * r + 1, 199, total); }
    if r > 100 { MulMonotone(201, 2 * r - 1, total); }
    var z := Percentage(0, total);
    if z < 0 { MulMonotone(2 * z + 1, -1, total); }
    if z > 0 { MulMonotone(1, 2 * z - 1, total); }
  }

  /** For a fixed total, a higher score never gives a lower percentage. */
  lemma PercentageMonotone(s1: int, s2: int, total: int)
    requires s1 <= s2
    ensures Percentage(s1, total) <= Percentage(s2, total)
  {
    if total > 0 {
      var r1, r2 := Percentage(s1, total), Percentage(s2, total);
      if r1 > r2 {
        MulMonotone(2 * r2 + 1, 2 * r1 - 1, total);
      }
    }
  }

  /** The three messages, ordered from the lowest tier to the highest. */
  datatype Tier = GoodEffort | GreatJob | Excellent

  function Rank(t: Tier): (n: nat)
    ensures n <= 2
  {
    match t
    case GoodEffort => 0
    case GreatJob => 1
    case Excellent => 2
  }

  /** The tier the percentage selects: above 90, above 70, or neither. */
  function TierOf(percentage: int): (t: Tier)
    ensures t == Excellent <==> percentage > 90
    ensures t == GreatJob <==> 70 < percentage <= 90
    ensures t == GoodEffort <==> percentage <= 70
  {
    if percentage > 90 then Excellent
    else if percentage > 70 then GreatJob
    else GoodEffort
  }

  function MessageOf(t: Tier): string
  {
    match t
    case GoodEffort => GoodEffortMessage
    case GreatJob => GreatJobMessage
    case Excellent => ExcellentMessage
  }

  /** The message shown for a percentage; each of the three is shown exactly on its range. */
  function Message(percentage: int): (m: string)
    ensures m == ExcellentMessage <==> percentage > 90
    ensures m == GreatJobMessage <==> 70 < percentage <= 90
    ensures m == GoodEffortMessage <==> percentage <= 70
  {
    MessageOf(TierOf(percentage))
  }

  /** For a fixed total, a higher score never gives a lower message tier. */
  lemma TierMonotone(s1: int, s2: int, total: int)
    requires s1 <= s2
    ensures Rank(TierOf(Percentage(s1, total))) <= Rank(TierOf(Percentage(s2, total)))
  {
    PercentageMonotone(s1, s2, total);
  }
}
