/**
 * The request handlers of the adaptive-learning controller:
 * `saveStudiedTopic`, `submitQuizResults` and `getTopicsForReview`. Each
 * outcome of a storage call is a parameter; the progress and achievement
 * tables live in a `LearningStore`.
 */
module AdaptiveLearning {
  import opened Wrappers
  import opened Text
  import opened MasteryScheduler
  import opened ProgressTracker
  import opened ReviewQueue

  const SaveMissingFieldsMessage := "student_id y topic_name son requeridos"
  const SaveFailedMessage := "Error al guardar el tema"
  const QuizFailedMessage := "Error al guardar resultados"
  const ReviewFailedMessage := "Error al obtener temas"

  /** The body of a save-topic request; absent fields are `None`. */
  datatype SaveRequest = SaveRequest(
    studentId: Option<string>,
    topicName: Option<string>,
    contentGenerated: Option<string>,
    difficultyLevel: Option<int>)

  /** The `learning_topics` row the handler inserts. */
  datatype TopicRow = TopicRow(
    studentId: string,
    topicName: string,
    contentGenerated: Option<string>,
    difficultyLevel: int,
    nextReviewDay: int,
    lastReviewedDay: int)

  /** What the insert returns: an error, or the new row's id. */
  datatype InsertReply = InsertFailed | Inserted(id: string)

  datatype SaveResponse =
    | TopicSaved(topicId: string, nextReviewDay: int)
    | SaveError(status: nat, message: string)

  /**
   * `saveStudiedTopic`: both `student_id` and `topic_name` must be truthy
   * (400 otherwise, nothing written); the row is inserted with difficulty 1
   * unless given and a review one day later; a failed insert gives 500 and
   * does not touch the progress table; after a successful insert the
   * student's progress is updated (never failing) and the response is 200.
   */
  method SaveStudiedTopic(store: LearningStore, request: SaveRequest, today: int, insert: InsertReply,
                          readOk: bool, upsertOk: bool, awardOk: bool)
    returns (response: SaveResponse, row: Option<TopicRow>)
    requires store.Valid()
    modifies store
    ensures store.Valid()
    ensures !Truthy(request.studentId) || !Truthy(request.topicName) ==>
      && response == SaveError(400, SaveMissingFieldsMessage)
      && row.None?
      && unchanged(store)
    ensures Truthy(request.studentId) && Truthy(request.topicName) ==>
      row == Some(TopicRow(request.studentId.value, request.topicName.value, request.contentGenerated,
                           request.difficultyLevel.GetOr(1), today + OnboardingIntervalDays, today))
    ensures Truthy(request.studentId) && Truthy(request.topicName) && insert.InsertFailed? ==>
      response == SaveError(500, SaveFailedMessage) && unchanged(store)
    ensures Truthy(request.studentId) && Truthy(request.topicName) && insert.Inserted? ==>
      && response == TopicSaved(insert.id, today + OnboardingIntervalDays)
      && store.progress == ProgressAfter(old(store.progress), request.studentId.value, false, today, readOk, upsertOk)
      && store.achievements == AchievementsAfter(old(store.achievements), old(store.progress),
                                                 request.studentId.value, today, readOk, awardOk)
  {
    if !Truthy(request.studentId) || !Truthy(request.topicName) {
      return SaveError(400, SaveMissingFieldsMessage), None;
    }
    var studentId := request.studentId.value;
    var nextReviewDay := today + OnboardingIntervalDays;
    row := Some(TopicRow(studentId, request.topicName.value, request.contentGenerated,
                         request.difficultyLevel.GetOr(1), nextReviewDay, today));
    if insert.InsertFailed? {
      return SaveError(500, SaveFailedMessage), row;
    }
    store.UpdateStudentProgress(studentId, false, today, readOk, upsertOk, awardOk);
    response := TopicSaved(insert.id, nextReviewDay);
  }

  /** The body of a quiz submission. */
  datatype QuizRequest = QuizRequest(
    learningTopicId: string,
    studentId: string,
    score: real,
    timeSpentSeconds: int)

  /** The columns of the topic row that the handler updates. */
  datatype TopicUpdate = TopicUpdate(masteryScore: real, lastReviewedDay: int, reviewInDays: real)

  datatype QuizResponse =
    | QuizSubmitted(newMastery: real, reviewInDays: real, masteryAchieved: bool)
    | QuizError(status: nat, message: string)

  /**
   * `submitQuizResults`. `topicMastery` is the stored mastery of the topic,
   * `None` when the lookup returns no row, which makes the handler fail with
   * 500 (reading a field of a missing row throws). Otherwise the new mastery
   * is the weighted update, the next review follows the step function, the
   * response flags mastery by level, and the student's mastered counter is
   * bumped exactly when mastery has just been reached.
   */
  method SubmitQuizResults(store: LearningStore, request: QuizRequest, topicMastery: Option<real>, today: int,
                           readOk: bool, upsertOk: bool, awardOk: bool)
    returns (response: QuizResponse, update: Option<TopicUpdate>)
    requires store.Valid()
    modifies store
    ensures store.Valid()
    ensures topicMastery.None? ==> response == QuizError(500, QuizFailedMessage) && update.None? && unchanged(store)
    ensures topicMastery.Some? ==>
      var m := UpdateMastery(topicMastery.value, request.score);
      && response == QuizSubmitted(m, NextReviewInterval(m), MasteryAchieved(m))
      && update == Some(TopicUpdate(m, today, NextReviewInterval(m)))
    ensures topicMastery.Some? && MasteredNewTopic(topicMastery.value, UpdateMastery(topicMastery.value, request.score)) ==>
      && store.progress == ProgressAfter(old(store.progress), request.studentId, true, today, readOk, upsertOk)
      && store.achievements == AchievementsAfter(old(store.achievements), old(store.progress),
                                                 request.studentId, today, readOk, awardOk)
    ensures topicMastery.Some? && !MasteredNewTopic(topicMastery.value, UpdateMastery(topicMastery.value, request.score)) ==>
      unchanged(store)
  {
    if topicMastery.None? {
      return QuizError(500, QuizFailedMessage), None;
    }
    var previous := topicMastery.value;
    var newMastery := UpdateMastery(previous, request.score);
    var days := NextReviewInterval(newMastery);
    update := Some(TopicUpdate(newMastery, today, days));
    if newMastery >= MasteryThreshold && previous < MasteryThreshold {
      store.UpdateStudentProgress(request.studentId, true, today, readOk, upsertOk, awardOk);
    }
    response := QuizSubmitted(newMastery, days, newMastery >= MasteryThreshold);
  }

  /** The worked example: 0.75 and a perfect quiz give 0.825, mastered, review in 3 days. */
  lemma QuizExample()
    ensures var m := UpdateMastery(0.75, 1.0);
      m == 0.825 && MasteredNewTopic(0.75, m) && MasteryAchieved(m) && NextReviewInterval(m) == 3.0
  {
  }

  datatype ReviewResponse =
    | ReviewList(topics: seq<TopicRecord>, count: nat)
    | QueryError(status: nat, message: string)

  /**
   * `getTopicsForReview`: a failed query gives 500; otherwise the selected
   * topics and a count equal to their number.
   */
  function TopicsForReview(table: seq<TopicRecord>, studentId: string, now: int, queryOk: bool): (r: ReviewResponse)
    ensures !queryOk <==> r == QueryError(500, ReviewFailedMessage)
    ensures queryOk ==> r.ReviewList? && r.count == |r.topics| && r.count <= ReviewLimit
    ensures queryOk ==> forall i :: 0 <= i < r.count ==> IsDue(r.topics[i], studentId, now)
    ensures queryOk ==> SortedByReview(r.topics)
    ensures queryOk ==> r.topics == SelectForReview(table, studentId, now)
  {
    if !queryOk then QueryError(500, ReviewFailedMessage)
    else
      var selected := SelectForReview(table, studentId, now);
      ReviewList(selected, |selected|)
  }
}
