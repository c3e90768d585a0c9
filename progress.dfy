/**
 * Per-student progress (topics studied and mastered, study streak) and streak
 * achievements of the adaptive-learning controller. The `student_progress`
 * table is a map keyed by student id, the `student_achievements` table a set
 * of (student id, achievement) pairs, both held by `LearningStore`. Dates are
 * day numbers: "yesterday" is `today - 1`.
 */
module ProgressTracker {
  import opened Wrappers

  type StudentId = string

  /** A `student_progress` row. */
  datatype Progress = Progress(
    totalTopicsStudied: nat,
    totalTopicsMastered: nat,
    studyStreakDays: nat,
    lastActivityDay: int)

  datatype Achievement = Streak7 | Streak30

  /** The streak length at which an achievement is unlocked. */
  function Threshold(a: Achievement): nat
  {
    match a
    case Streak7 => 7
    case Streak30 => 30
  }

  /**
   * The streak after an activity today: 1 without a prior row, one more when
   * the last activity was yesterday, unchanged when it was today, and 1 again
   * after any other last day.
   */
  function NextStreak(prior: Option<Progress>, today: int): (streak: nat)
    ensures prior.None? ==> streak == 1
    ensures prior.Some? && prior.value.lastActivityDay == today - 1 ==> streak == prior.value.studyStreakDays + 1
    ensures prior.Some? && prior.value.lastActivityDay == today ==> streak == prior.value.studyStreakDays
    ensures prior.Some? && prior.value.lastActivityDay != today - 1 && prior.value.lastActivityDay != today ==> streak == 1
  {
    if prior.None? then 1
    else if prior.value.lastActivityDay == today - 1 then prior.value.studyStreakDays + 1
    else if prior.value.lastActivityDay == today then prior.value.studyStreakDays
    else 1
  }

  /** A prior counter, with a missing row counted as 0. */
  function StudiedSoFar(prior: Option<Progress>): nat
  {
    if prior.Some? then prior.value.totalTopicsStudied else 0
  }

  function MasteredSoFar(prior: Option<Progress>): nat
  {
    if prior.Some? then prior.value.totalTopicsMastered else 0
  }

  /**
   * The row written by one study activity: one more topic studied, one more
   * mastered exactly when `masteredNewTopic`, the new streak, and today as the
   * last activity. Mastered never overtakes studied.
   */
  function ApplyActivity(prior: Option<Progress>, masteredNewTopic: bool, today: int): (p: Progress)
    ensures p.totalTopicsStudied == StudiedSoFar(prior) + 1
    ensures p.totalTopicsMastered == MasteredSoFar(prior) + (if masteredNewTopic then 1 else 0)
    ensures p.studyStreakDays == NextStreak(prior, today)
    ensures p.lastActivityDay == today
    ensures MasteredSoFar(prior) <= StudiedSoFar(prior) ==> p.totalTopicsMastered <= p.totalTopicsStudied
  {
    Progress(
      StudiedSoFar(prior) + 1,
      MasteredSoFar(prior) + (if masteredNewTopic then 1 else 0),
      NextStreak(prior, today),
      today)
  }

  /** The row a sequence of study activities on the given days leaves behind. */
  function Replay(prior: Option<Progress>, days: seq<int>): Option<Progress>
    decreases |days|
  {
    if days == [] then prior
    else Replay(Some(ApplyActivity(prior, false, days[0])), days[1..])
  }

  /** The days `start`, `start + 1`, ..., `start + n - 1`. */
  function ConsecutiveDays(start: int, n: nat): (days: seq<int>)
    ensures |days| == n
    ensures forall i :: 0 <= i < n ==> days[i] == start + i
    decreases n
  {
    if n == 0 then [] else [start] + ConsecutiveDays(start + 1, n - 1)
  }

  /**
   * Studying on `n` consecutive days in a row, starting from a row whose last
   * activity was the day before, extends its streak by `n` and its studied
   * count by `n`.
   */
  lemma {:induction false} ConsecutiveDaysExtendStreak(p: Progress, start: int, n: nat)
    requires p.lastActivityDay == start - 1
    decreases n
    ensures var q := Replay(Some(p), ConsecutiveDays(start, n));
      && q.Some?
      && q.value.studyStreakDays == p.studyStreakDays + n
      && q.value.totalTopicsStudied == p.totalTopicsStudied + n
  {
    if n > 0 {
      var p' := ApplyActivity(Some(p), false, start);
      assert ConsecutiveDays(start, n)[1..] == ConsecutiveDays(start + 1, n - 1);
      ConsecutiveDaysExtendStreak(p', start + 1, n - 1);
    }
  }

  /** From no row at all, `n >= 1` consecutive days of study give a streak of `n`. */
  lemma FreshStreak(start: int, n: nat)
    requires n >= 1
    ensures var q := Replay(None, ConsecutiveDays(start, n));
      q.Some? && q.value.studyStreakDays == n && q.value.totalTopicsStudied == n
  {
    var p := ApplyActivity(None, false, start);
    assert ConsecutiveDays(start, n)[1..] == ConsecutiveDays(start + 1, n - 1);
    ConsecutiveDaysExtendStreak(p, start + 1, n - 1);
  }

  /** A second activity on the same day leaves the streak as it was. */
  lemma SameDayKeepsStreak(prior: Option<Progress>, flag1: bool, flag2: bool, today: int)
    ensures var p := ApplyActivity(prior, flag1, today);
      ApplyActivity(Some(p), flag2, today).studyStreakDays == p.studyStreakDays
  {
  }

  /**
   * `checkAndAwardAchievements`' list: exactly the achievements whose
   * threshold the streak reaches, in increasing order of threshold.
   */
  function Earned(streak: nat): (earned: seq<Achievement>)
    ensures forall a :: a in earned <==> Threshold(a) <= streak
    ensures forall i, j :: 0 <= i < j < |earned| ==> Threshold(earned[i]) < Threshold(earned[j])
  {
    (if streak >= 7 then [Streak7] else []) + (if streak >= 30 then [Streak30] else [])
  }

  /** Below seven days nothing is awarded. */
  lemma NothingBelowSeven(streak: nat)
    requires streak < 7
    ensures Earned(streak) == []
  {
  }

  /** The set after upserting the pairs `(studentId, a)` for `a` in `list`. */
  function AwardAll(held: set<(StudentId, Achievement)>, studentId: StudentId, list: seq<Achievement>)
    : (r: set<(StudentId, Achievement)>)
    ensures held <= r
    ensures forall a :: a in list ==> (studentId, a) in r
    ensures forall p :: p in r && p !in held ==> p.0 == studentId && p.1 in list
  {
    held + set a | a in list :: (studentId, a)
  }

  /** Awarding again what was just awarded changes nothing. */
  lemma AwardAllIdempotent(held: set<(StudentId, Achievement)>, studentId: StudentId, list: seq<Achievement>)
    ensures AwardAll(AwardAll(held, studentId, list), studentId, list) == AwardAll(held, studentId, list)
  {
  }

  /**
   * The row the update reads: the stored one when the read succeeds. A failed
   * read yields no data and is treated exactly like a missing row.
   */
  function PriorRow(progress: map<StudentId, Progress>, studentId: StudentId, readOk: bool): Option<Progress>
  {
    if readOk && studentId in progress then Some(progress[studentId]) else None
  }

  /** The progress table after `updateStudentProgress`. */
  function ProgressAfter(progress: map<StudentId, Progress>, studentId: StudentId, masteredNewTopic: bool,
                         today: int, readOk: bool, upsertOk: bool): map<StudentId, Progress>
  {
    if upsertOk then progress[studentId := ApplyActivity(PriorRow(progress, studentId, readOk), masteredNewTopic, today)]
    else progress
  }

  /**
   * The achievement set after `updateStudentProgress`: awarding uses the new
   * streak even when the progress upsert failed.
   */
  function AchievementsAfter(held: set<(StudentId, Achievement)>, progress: map<StudentId, Progress>,
                             studentId: StudentId, today: int, readOk: bool, awardOk: bool)
    : set<(StudentId, Achievement)>
  {
    if awardOk then AwardAll(held, studentId, Earned(NextStreak(PriorRow(progress, studentId, readOk), today)))
    else held
  }

  /** Only the acting student's row changes. */
  lemma ProgressAfterTouchesOneStudent(progress: map<StudentId, Progress>, studentId: StudentId, flag: bool,
                                       today: int, readOk: bool, upsertOk: bool, other: StudentId)
    requires other != studentId
    ensures var after := ProgressAfter(progress, studentId, flag, today, readOk, upsertOk);
      (other in after <==> other in progress) && (other in progress ==> after[other] == progress[other])
  {
  }

  /**
   * A failed read followed by a successful upsert rewrites the row as if it
   * were the student's first activity, whatever the stored row held.
   */
  lemma FailedReadRestartsRow(progress: map<StudentId, Progress>, studentId: StudentId, flag: bool, today: int)
    ensures var after := ProgressAfter(progress, studentId, flag, today, false, true);
      && studentId in after
      && after[studentId].totalTopicsStudied == 1
      && after[studentId].totalTopicsMastered == (if flag then 1 else 0)
      && after[studentId].studyStreakDays == 1
  {
  }

  /** Hence the stored counters can go down: ten topics studied become one. */
  lemma FailedReadLowersCounter(p: Progress, studentId: StudentId, today: int)
    requires p.totalTopicsStudied == 10
    ensures ProgressAfter(map[studentId := p], studentId, false, today, false, true)[studentId].totalTopicsStudied == 1
  {
    FailedReadRestartsRow(map[studentId := p], studentId, false, today);
  }

  /** The two tables; methods update them as the controller's upserts do. */
  class LearningStore {
    var progress: map<StudentId, Progress>
    var achievements: set<(StudentId, Achievement)>

    /** No student has mastered more topics than they have studied. */
    ghost predicate Valid()
      reads this
    {
      forall s :: s in progress ==> progress[s].totalTopicsMastered <= progress[s].totalTopicsStudied
    }

    constructor ()
      ensures Valid()
      ensures progress == map[] && achievements == {}
    {
      progress := map[];
      achievements := {};
    }

    /**
     * `checkAndAwardAchievements`: collects the earned achievements and, when
     * there are any, upserts them keyed by (student, achievement); a failed
     * upsert leaves the set unchanged.
     */
    method CheckAndAwardAchievements(studentId: StudentId, streak: nat, upsertOk: bool)
      returns (awarded: seq<Achievement>)
      modifies this`achievements
      ensures awarded == Earned(streak)
      ensures achievements == if upsertOk then AwardAll(old(achievements), studentId, awarded) else old(achievements)
    {
      awarded := [];
      if streak >= 7 {
        awarded := awarded + [Streak7];
      }
      if streak >= 30 {
        awarded := awarded + [Streak30];
      }
      if |awarded| > 0 && upsertOk {
        achievements := AwardAll(achievements, studentId, awarded);
      }
    }

    /**
     * `updateStudentProgress`: reads the student's row, computes the new
     * streak, upserts the new row and awards achievements for the new streak.
     * Failures are absorbed: there is no error result.
     */
    method UpdateStudentProgress(studentId: StudentId, masteredNewTopic: bool, today: int,
                                 readOk: bool, upsertOk: bool, awardOk: bool)
      requires Valid()
      modifies this
      ensures Valid()
      ensures progress == ProgressAfter(old(progress), studentId, masteredNewTopic, today, readOk, upsertOk)
      ensures achievements == AchievementsAfter(old(achievements), old(progress), studentId, today, readOk, awardOk)
    {
      var prior := PriorRow(progress, studentId, readOk);
      var newStreak := 1;
      if prior.Some? {
        if prior.value.lastActivityDay == today - 1 {
          newStreak := prior.value.studyStreakDays + 1;
        } else if prior.value.lastActivityDay == today {
          newStreak := prior.value.studyStreakDays;
        }
      }
      if upsertOk {
        var mastered := MasteredSoFar(prior) + (if masteredNewTopic then 1 else 0);
        progress := progress[studentId := Progress(StudiedSoFar(prior) + 1, mastered, newStreak, today)];
      }
      var _ := CheckAndAwardAchievements(studentId, newStreak, awardOk);
    }
  }
}
