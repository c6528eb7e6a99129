/** `calculateScore` of helpers/prediction.helpers.js: two predicted and two
    final scores give an accuracy score in 0..100.  Each side's miss is capped
    at `MaxDifference`, loses half a point per unit of miss, and the sum is
    rounded half up (`Math.round`).  The body follows the source's formula in
    exact real arithmetic; the contract gives the equivalent integer form. */
module Scoring {

  /** The cap on one side's miss and the `max_difference` divisor; the source
      writes the literal 100 for both. */
  const MaxDifference: nat := 100

  /** Each side contributes at most this many points. */
  const PointsPerSide: nat := 50

  function Abs(x: int): nat {
    if x < 0 then -x else x
  }

  /** `Math.min(100, Math.abs(actual - predicted))`. */
  function CappedMiss(actual: int, predicted: int): nat {
    if Abs(actual - predicted) < MaxDifference then Abs(actual - predicted) else MaxDifference
  }

  /** `Math.round`: the nearest integer, halves rounded towards +infinity. */
  function Round(x: real): int {
    (x + 0.5).Floor
  }

  lemma RoundHalfPoints(s: nat)
    ensures Round(100.0 - s as real / 2.0) == 100 - s / 2
  {
    var q := s / 2;
    assert s == 2 * q + s % 2;
    var x := 100.0 - s as real / 2.0 + 0.5;
    assert x == (100 - q) as real + (1 - s % 2) as real / 2.0;
    assert (100 - q) as real <= x < (100 - q) as real + 1.0;
  }

  /** The accuracy score of a prediction once the game is final. */
  function CalculateScore(actualAway: int, actualHome: int, predictedAway: int, predictedHome: int): (score: int)
    ensures 0 <= score <= 100
    ensures score == 100 - (CappedMiss(actualAway, predictedAway) + CappedMiss(actualHome, predictedHome)) / 2
  {
    var awayDifference := CappedMiss(actualAway, predictedAway);
    var homeDifference := CappedMiss(actualHome, predictedHome);
    var awayPoints := (1.0 - awayDifference as real / MaxDifference as real) * PointsPerSide as real;
    var homePoints := (1.0 - homeDifference as real / MaxDifference as real) * PointsPerSide as real;
    assert awayPoints + homePoints == 100.0 - (awayDifference + homeDifference) as real / 2.0;
    RoundHalfPoints(awayDifference + homeDifference);
    Round(awayPoints + homePoints)
  }

  /** A prediction exact on both sides scores the maximum. */
  lemma ExactPredictionScoresFull(away: int, home: int)
    ensures CalculateScore(away, home, away, home) == 100
  {
  }

  /** Only the size of each miss matters, so actual and predicted can be swapped. */
  lemma ScoreSymmetric(actualAway: int, actualHome: int, predictedAway: int, predictedHome: int)
    ensures CalculateScore(actualAway, actualHome, predictedAway, predictedHome)
         == CalculateScore(predictedAway, predictedHome, actualAway, actualHome)
  {
  }

  /** A larger miss on either side never scores more. */
  lemma ScoreNonIncreasing(aa: int, ah: int, pa: int, ph: int, aa': int, ah': int, pa': int, ph': int)
    requires Abs(aa - pa) <= Abs(aa' - pa') && Abs(ah - ph) <= Abs(ah' - ph')
    ensures CalculateScore(aa, ah, pa, ph) >= CalculateScore(aa', ah', pa', ph')
  {
  }

  /** Once a side misses by the cap or more, missing by more costs nothing. */
  lemma ScoreFlatBeyondCap(actualAway: int, actualHome: int, predictedAway: int, predictedHome: int, predictedAway': int)
    requires Abs(actualAway - predictedAway) >= MaxDifference && Abs(actualAway - predictedAway') >= MaxDifference
    ensures CalculateScore(actualAway, actualHome, predictedAway, predictedHome)
         == CalculateScore(actualAway, actualHome, predictedAway', predictedHome)
  {
  }

  /** Final 102-98, prediction 100-95: misses 2 and 3, 100 - 2.5 rounds up to 98. */
  lemma WorkedExample()
    ensures CalculateScore(102, 98, 100, 95) == 98
  {
  }
}
