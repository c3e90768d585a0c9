/**
 * Spaced-repetition interval and mastery update of the adaptive-learning
 * controller. Scores are reals; the thresholds are exact (no floating-point
 * rounding).
 */
module MasteryScheduler {

  /**
   * Days until the first review of a newly saved topic, before any quiz: a
   * fixed interval, independent of `NextReviewInterval`.
   */
  const OnboardingIntervalDays: nat := 1

  /** Mastery at or above which a topic counts as mastered. */
  const MasteryThreshold: real := 0.8

  /**
   * `calculateNextReview`: days until the next review, a step function of the
   * mastery score. The second argument is accepted and ignored, as in the
   * source. Each boundary value belongs to the higher bracket.
   */
  function NextReviewInterval(masteryScore: real, currentInterval: real := 1.0): (days: real)
    ensures masteryScore >= 0.9 ==> days == 7.0
    ensures 0.7 <= masteryScore < 0.9 ==> days == 3.0
    ensures 0.5 <= masteryScore < 0.7 ==> days == 1.0
    ensures masteryScore < 0.5 ==> days == 0.25
  {
    if masteryScore >= 0.9 then 7.0
    else if masteryScore >= 0.7 then 3.0
    else if masteryScore >= 0.5 then 1.0
    else 0.25
  }

  /** The interval only takes the four values 7, 3, 1 and 0.25 days. */
  lemma NextReviewValues(m: real)
    ensures NextReviewInterval(m) in {7.0, 3.0, 1.0, 0.25}
  {
  }

  /** A higher mastery never schedules an earlier review. */
  lemma NextReviewMonotone(m1: real, m2: real)
    requires m1 <= m2
    ensures NextReviewInterval(m1) <= NextReviewInterval(m2)
  {
  }

  /** The current interval has no effect on the result. */
  lemma NextReviewIgnoresCurrentInterval(m: real, i1: real, i2: real)
    ensures NextReviewInterval(m, i1) == NextReviewInterval(m, i2)
  {
  }

  /**
   * The weighted update of a topic's mastery after a quiz: 70% of the old
   * score and 30% of the quiz score. The result lies between the two inputs.
   */
  function UpdateMastery(previous: real, quizScore: real): (m: real)
    ensures previous <= quizScore ==> previous <= m <= quizScore
    ensures quizScore <= previous ==> quizScore <= m <= previous
  {
    previous * 0.7 + quizScore * 0.3
  }

  /** Hence the mastery stays in [0, 1] when both inputs are in [0, 1]. */
  lemma UpdateMasteryInUnitInterval(previous: real, quizScore: real)
    requires 0.0 <= previous <= 1.0 && 0.0 <= quizScore <= 1.0
    ensures 0.0 <= UpdateMastery(previous, quizScore) <= 1.0
  {
  }

  /**
   * The edge-triggered event that adds one to the student's mastered-topic
   * counter: the new mastery reaches the threshold and the old one was below.
   */
  predicate MasteredNewTopic(previous: real, newMastery: real)
  {
    newMastery >= MasteryThreshold && previous < MasteryThreshold
  }

  /** The level-triggered `mastery_achieved` flag of the response. */
  predicate MasteryAchieved(newMastery: real)
  {
    newMastery >= MasteryThreshold
  }

  /**
   * Once a submission has fired the event, the next submission on the same
   * topic cannot fire it again, whatever its score.
   */
  lemma MasteredNewTopicFiresOnce(previous: real, score1: real, score2: real)
    requires MasteredNewTopic(previous, UpdateMastery(previous, score1))
    ensures var m1 := UpdateMastery(previous, score1);
      !MasteredNewTopic(m1, UpdateMastery(m1, score2))
  {
  }

  /** The event implies the flag, but the flag can hold without the event. */
  lemma EventImpliesFlag(previous: real, score: real)
    ensures MasteredNewTopic(previous, UpdateMastery(previous, score))
      ==> MasteryAchieved(UpdateMastery(previous, score))
    ensures MasteryAchieved(UpdateMastery(0.85, 0.9)) && !MasteredNewTopic(0.85, UpdateMastery(0.85, 0.9))
  {
  }
}
