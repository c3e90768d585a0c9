# Adaptive VAK learning backend — Dafny model

This project models the core of a Node.js backend for an adaptive learning
application. The backend personalises content by VAK learning style (Visual,
Auditory, Kinesthetic) and schedules spaced-repetition reviews. The model
covers the logic of its three controllers:

- **Adaptive learning** (`adaptiveLearningController.js`). It computes the
  review interval from a mastery score and updates mastery as a 70/30
  weighted average. It tracks each student's study streak and topic
  counters, awards streak achievements, and selects the topics due for
  review. The `student_progress` and `student_achievements` tables are a
  `map` and a `set` held by the class `ProgressTracker.LearningStore`, which
  the handlers update.
- **Content search** (`searchController.js`). This covers the retry loop
  around the generation call, the VAK prompt builder and the status-code
  flow of the content-agent endpoint. The retry loop is a `while` loop proved
  against a recursive specification (`RetryPolicy.Run`). The service's
  answers come in as a sequence of outcomes, one per call, and the random
  jitter of each delay as a sequence of values in [0, 999].
- **Classification** (`classificationController.js`). This covers the
  validation order, the three phases (translate, classify, upsert), the
  point where each phase can stop the request, and the fallback to the
  label `"Visual"`.

Each call to the database, the generation service or the classifier is a
parameter that stands for its reply: a found row or none, an error code, a
success flag, a sequence of outcomes. Dates are integer day numbers, so
"yesterday" is `today - 1`. Scores are `real`s.

Modules: `Wrappers` (Option), `Text` (`includes`, `trim`, truthiness of a
request field), `MasteryScheduler`, `ProgressTracker`, `ReviewQueue`,
`AdaptiveLearning` (the three adaptive-learning handlers), `RetryPolicy`,
`PromptBuilder`, `SearchController` and `ClassificationController`.

Points where the code behaves differently from what a reader might expect:

- The retry loop's header comment (`searchController.js:13`) says it helps
  with temporary errors such as 503. The code at line 36 does the reverse.
  An error whose message contains `503` or `UNAVAILABLE` is thrown at once,
  and every other error is retried until the last attempt.
  `RetryPolicy.UnavailableNotRetried` shows one concrete case: a 503
  followed by successes makes a single call and throws.
- A failed read of the progress row is treated like a missing row
  (`adaptiveLearningController.js:207-217`). The row is then rewritten with
  studied = 1 and streak = 1, so the counters can go down.
  `ProgressTracker.FailedReadRestartsRow` proves this, and
  `ProgressTracker.FailedReadLowersCounter` shows ten topics studied becoming
  one.
- A higher mastery gives a longer interval.
  `MasteryScheduler.NextReviewMonotone` proves the interval non-decreasing
  in the mastery.
- The score of a quiz is not checked to lie in [0, 1].
  `MasteryScheduler.UpdateMasteryInUnitInterval` states the bound only for
  inputs that lie in [0, 1].

## Model

| member | source | states |
|---|---|---|
| MasteryScheduler.NextReviewInterval | node-api-agent/controllers/adaptiveLearningController.js:13-23 | 7 days for m ≥ 0.9, 3 for 0.7 ≤ m < 0.9, 1 for 0.5 ≤ m < 0.7, 0.25 below 0.5; each boundary goes to the higher bracket |
| MasteryScheduler.NextReviewValues | node-api-agent/controllers/adaptiveLearningController.js:14-22 | the interval takes only the four values 7, 3, 1 and 0.25 |
| MasteryScheduler.NextReviewMonotone | node-api-agent/controllers/adaptiveLearningController.js:13-23 | a higher mastery never gives a shorter interval |
| MasteryScheduler.NextReviewIgnoresCurrentInterval | node-api-agent/controllers/adaptiveLearningController.js:13 | the `currentInterval` argument has no effect |
| MasteryScheduler.UpdateMastery | node-api-agent/controllers/adaptiveLearningController.js:139-140 | the new mastery lies between the old mastery and the quiz score |
| MasteryScheduler.UpdateMasteryInUnitInterval | node-api-agent/controllers/adaptiveLearningController.js:140 | with both inputs in [0, 1], the new mastery is in [0, 1] |
| MasteryScheduler.MasteredNewTopic | node-api-agent/controllers/adaptiveLearningController.js:158 | the counter event: the new mastery is at least 0.8 and the stored one was below 0.8 |
| MasteryScheduler.MasteryAchieved | node-api-agent/controllers/adaptiveLearningController.js:166 | the response flag: the new mastery is at least 0.8, whatever it was before |
| MasteryScheduler.MasteredNewTopicFiresOnce | node-api-agent/controllers/adaptiveLearningController.js:158-160 | once a submission raises mastery across 0.8, the next submission on that topic cannot raise the mastered counter again |
| MasteryScheduler.EventImpliesFlag | node-api-agent/controllers/adaptiveLearningController.js:158-166 | the counter event implies `mastery_achieved`; with 0.85 and a 0.9 quiz the flag holds without the event |
| ProgressTracker.NextStreak | node-api-agent/controllers/adaptiveLearningController.js:215-228 | no prior row gives 1; last activity yesterday gives prior + 1; today keeps the prior streak; any other day gives 1 |
| ProgressTracker.ApplyActivity | node-api-agent/controllers/adaptiveLearningController.js:230-240 | studied = prior + 1 and mastered = prior + (flag ? 1 : 0), a missing row counting as 0; the new streak; today as last activity; mastered ≤ studied is kept |
| ProgressTracker.ConsecutiveDaysExtendStreak | node-api-agent/controllers/adaptiveLearningController.js:216-236 | studying on n consecutive days right after the last activity adds n to the streak and n to the studied count |
| ProgressTracker.FreshStreak | node-api-agent/controllers/adaptiveLearningController.js:216-236 | starting with no row, n ≥ 1 consecutive days of study give a streak of n and n topics studied |
| ProgressTracker.SameDayKeepsStreak | node-api-agent/controllers/adaptiveLearningController.js:225-227 | a second activity on the same day leaves the streak unchanged |
| ProgressTracker.Earned | node-api-agent/controllers/adaptiveLearningController.js:252-263 | the list holds exactly the achievements whose threshold (7, 30) the streak reaches, `streak_7` before `streak_30` |
| ProgressTracker.NothingBelowSeven | node-api-agent/controllers/adaptiveLearningController.js:255-258 | a streak below 7 earns nothing |
| ProgressTracker.AwardAll | node-api-agent/controllers/adaptiveLearningController.js:265-270 | the upsert keeps every held pair, adds (student, a) for each listed a, and adds nothing else |
| ProgressTracker.AwardAllIdempotent | node-api-agent/controllers/adaptiveLearningController.js:267-269 | awarding the same list again changes nothing: a pair is stored once |
| ProgressTracker.ProgressAfterTouchesOneStudent | node-api-agent/controllers/adaptiveLearningController.js:231-240 | the progress upsert changes only the acting student's row |
| ProgressTracker.PriorRow | node-api-agent/controllers/adaptiveLearningController.js:207-217 | the row the update starts from: the stored row only when the read succeeds and the row exists; a failed read gives the same as no row |
| ProgressTracker.ProgressAfter | node-api-agent/controllers/adaptiveLearningController.js:231-240 | the progress table after the upsert: the acting student's row replaced by `ApplyActivity` of the prior row when the upsert succeeds, the table unchanged when it fails |
| ProgressTracker.AchievementsAfter | node-api-agent/controllers/adaptiveLearningController.js:242-243 | the achievement set after the award step: the pairs earned by the new streak added when the award upsert succeeds, whether or not the progress upsert did |
| ProgressTracker.FailedReadRestartsRow | node-api-agent/controllers/adaptiveLearningController.js:207-240 | after a failed read and a successful upsert, the student's row has studied = 1, mastered = 1 or 0 by the flag, and streak = 1, whatever was stored |
| ProgressTracker.FailedReadLowersCounter | node-api-agent/controllers/adaptiveLearningController.js:207-240 | a stored row with ten topics studied is rewritten with one after a failed read |
| ProgressTracker.LearningStore.CheckAndAwardAchievements | node-api-agent/controllers/adaptiveLearningController.js:252-271 | builds the earned list and, when it is not empty and the upsert succeeds, adds its pairs to the achievement set; the set is unchanged otherwise |
| ProgressTracker.LearningStore.UpdateStudentProgress | node-api-agent/controllers/adaptiveLearningController.js:204-247 | keeps mastered ≤ studied for every student; new progress table as `ProgressAfter`, new achievement set as `AchievementsAfter`, which awards for the new streak even when the progress upsert failed; no error reaches the caller |
| ReviewQueue.DueTopics | node-api-agent/controllers/adaptiveLearningController.js:181-185 | keeps each row of the student with `next_review_at ≤ now`, as often as it occurs, and nothing else |
| ReviewQueue.SortByReview | node-api-agent/controllers/adaptiveLearningController.js:186 | the result is sorted ascending by `next_review_at` and is a permutation of the input |
| ReviewQueue.SortedPrefixEarliest | node-api-agent/controllers/adaptiveLearningController.js:186-187 | a prefix of a sorted list is sorted and holds no row later than a row left out |
| ReviewQueue.SelectForReview | node-api-agent/controllers/adaptiveLearningController.js:181-187 | only due rows of the student, ascending, min(5, number due) of them, drawn from the table, and no due row left out is earlier than one selected |
| AdaptiveLearning.SaveStudiedTopic | node-api-agent/controllers/adaptiveLearningController.js:28-67 | 400 with nothing written unless `student_id` and `topic_name` are truthy; the row gets difficulty 1 by default and a review one day later; a failed insert gives 500 and leaves progress alone; otherwise the progress update runs and the response is 200 with the new id |
| AdaptiveLearning.SubmitQuizResults | node-api-agent/controllers/adaptiveLearningController.js:117-172 | 500 when the topic is not found; otherwise the weighted mastery, the stepped interval, `mastery_achieved` by level; the progress update with mastered = true runs exactly when mastery crosses 0.8 |
| AdaptiveLearning.QuizExample | node-api-agent/controllers/adaptiveLearningController.js:140-166 | mastery 0.75 and a perfect quiz give 0.825, fire the event, set the flag and schedule a review in 3 days |
| AdaptiveLearning.TopicsForReview | node-api-agent/controllers/adaptiveLearningController.js:177-199 | 500 exactly when the query fails; otherwise the selected topics, due, sorted and at most 5, with `count` equal to their number |
| RetryPolicy.FetchWithRetry | node-api-agent/controllers/searchController.js:15-49 | the loop's result, call count and delays are those of the specification `Run` |
| RetryPolicy.RunFrom | node-api-agent/controllers/searchController.js:16-48 | the reference run from one attempt on: at or past `maxRetries` no call and `undefined`; a success returns it; an unavailable error or a failure on the last attempt throws the overload message; any other failure waits `Delay` and goes on with the next attempt |
| RetryPolicy.Run | node-api-agent/controllers/searchController.js:15-49 | the whole run starts at attempt 0 |
| RetryPolicy.IsUnavailable | node-api-agent/controllers/searchController.js:36 | the message contains `503` or `UNAVAILABLE` |
| RetryPolicy.Delay | node-api-agent/controllers/searchController.js:43 | the wait after failed attempt a with jitter j: `2^a * 1000 + j` milliseconds, j in [0, 999] |
| RetryPolicy.RunFromShape | node-api-agent/controllers/searchController.js:16-48 | from any attempt: between 1 and the remaining attempts' calls; every call but the last met a retryable error; the last call decides the result; one delay `2^a*1000 + j` per retried call |
| RetryPolicy.NoAttemptsNoCall | node-api-agent/controllers/searchController.js:15-49 | the result is `undefined` exactly when `maxRetries ≤ 0`, and then no call is made |
| RetryPolicy.CallsBoundedAndMessageFixed | node-api-agent/controllers/searchController.js:17-39 | at most `maxRetries` calls; every thrown error is the fixed overload message, never the cause |
| RetryPolicy.FirstSuccessReturned | node-api-agent/controllers/searchController.js:17-29 | a success on attempt k after k retryable errors is returned as is, after exactly k + 1 calls |
| RetryPolicy.UnavailableStopsAtOnce | node-api-agent/controllers/searchController.js:33-39 | an error mentioning 503 or UNAVAILABLE on attempt k throws at once, after k + 1 calls |
| RetryPolicy.UnavailableNotRetried | node-api-agent/controllers/searchController.js:36-39 | a 503 followed by successes makes one call and throws the overload error |
| RetryPolicy.PersistentFailureExhausts | node-api-agent/controllers/searchController.js:36-46 | always-retryable errors lead to exactly `maxRetries` calls, `maxRetries - 1` delays and the overload error |
| RetryPolicy.DelayIncreasing | node-api-agent/controllers/searchController.js:43 | the delay after attempt a + 1 exceeds the one after attempt a, whatever the jitters |
| RetryPolicy.DelaysOfRun | node-api-agent/controllers/searchController.js:43-46 | the a-th delay is `2^a*1000 + jitter[a]`, and the delays are strictly increasing |
| Text.ContainsMeaning | node-api-agent/controllers/searchController.js:36 | `includes` holds exactly when the string occurs at some position |
| Text.ConcatContainsPart | node-api-agent/controllers/searchController.js:102-122 | each piece of the template (the filled holes and the fixed text between them) occurs in the joined prompt |
| PromptBuilder.BuildVAKPrompt | node-api-agent/controllers/searchController.js:55-125 | the prompt always contains the topic, the style, the "Referencias Bibliográficas" heading and both of the style's instructions |
| PromptBuilder.StyleInstructions | node-api-agent/controllers/searchController.js:62-99 | the switch on the style by strict equality: Visual, Auditory and Kinesthetic each pick their own pair of adaptation and reference instructions; any other value, a missing style included, picks the standard pair |
| PromptBuilder.InstructionsDistinct | node-api-agent/controllers/searchController.js:62-99 | Visual, Auditory, Kinesthetic and the standard case get pairwise different instructions in both parts |
| PromptBuilder.UnrecognisedStyleIsStandard | node-api-agent/controllers/searchController.js:96-98 | any other style, including a missing one, gets the standard pair |
| SearchController.SearchContent | node-api-agent/controllers/searchController.js:130-221 | 400 without lookup or call when `topic` or `student_id` is missing; 500 for a lookup error other than PGRST116; 404 when there is no row; otherwise the prompt for the row's style, as many calls as `Run` makes, and 200 with the generated text exactly when `Run` returns one; 200 does not depend on the topic save or the log write; saved topic (review in 1 day) and log row follow a 200, the log's length counted in UTF-16 code units |
| SearchController.LookupFailed | node-api-agent/controllers/searchController.js:151 | a lookup error is thrown only when there is an error code and it is not `PGRST116` (no rows) |
| Text.Utf16Length | node-api-agent/controllers/searchController.js:205 | JavaScript's `length`: between the number of characters and twice that, one code unit per character up to U+FFFF and two above |
| Text.Utf16LengthMatchesOnBmp | node-api-agent/controllers/searchController.js:205 | the UTF-16 length equals the character count exactly when no character lies above U+FFFF |
| Text.Utf16LengthExample | node-api-agent/controllers/searchController.js:205 | a book emoji followed by one letter is two characters and three code units |
| Text.Truthy | node-api-agent/controllers/adaptiveLearningController.js:31 | a request field passes a `!field` test when it is present and not the empty string; the same test guards searchController.js:134 and classificationController.js:21 and :25 |
| Text.Trim | node-api-agent/controllers/classificationController.js:49 | the result occurs in the input between a white-space prefix and a white-space suffix, and neither starts nor ends with white space |
| Text.TrimIdempotent | node-api-agent/controllers/classificationController.js:49 | trimming twice is trimming once |
| ClassificationController.NormaliseLabel | node-api-agent/controllers/classificationController.js:65-70 | a non-empty string label passes through unchanged; a non-string or empty label becomes "Visual"; the result is never empty |
| ClassificationController.NormaliseLabelIdempotent | node-api-agent/controllers/classificationController.js:65-70 | normalising a normalised label changes nothing |
| ClassificationController.Persisted | node-api-agent/controllers/classificationController.js:103-108 | the upsert counts as done only without an error and with a non-null, non-empty list of returned rows |
| ClassificationController.ClassifyStyle | node-api-agent/controllers/classificationController.js:17-124 | `text_espanol` is checked before `user_id`, each missing field giving 400 with no call; translation, classification and upsert run in that order and each runs only when the one before succeeded; each failure gives its 500; an upsert error or empty returned data gives 500; on success `student_id` is `user_id`, the style is the normalised label and the translated text is trimmed |

## Left out

- `generateQuiz` is not modelled. It is a generation call followed by
  `JSON.parse`; its only local logic is stripping code fences from the reply.
- The database client, the generation client, the HTTP client and the
  Python classifier service are not modelled. Their replies are parameters.
  Express routing, server startup and configuration loading are not modelled
  either.
- Console logging, sleeping, timers and `Math.random` are not modelled. The
  loop returns its delays instead of sleeping; the jitters are parameters.
- `RetryPolicy.FetchWithRetry`: the prompt it sends is not an input. The
  sequence of outcomes stands for the service's answers to that prompt.
- `RetryPolicy.FetchWithRetry`: `error.message || String(error)` is modelled
  as the message only. An error with an empty message prints as a string
  that contains neither marker, so the choice of branch is the same.
- `AdaptiveLearning.SubmitQuizResults` does not model the
  `topic_assessments` table. The source ignores that insert's result, so it
  cannot change the response.
- `AdaptiveLearning.SubmitQuizResults` does not model the `learning_topics`
  table. The model returns the update it would write (new mastery, review
  date, interval) and does not store it.
- Calendar dates, ISO strings and time zones are not modelled. Days are
  integers and intervals are reals. How `setDate` truncates the 0.25 interval
  is not modelled.
- Scores are exact reals, so IEEE-754 rounding at the 0.5, 0.7, 0.8 and 0.9
  thresholds is not modelled. A missing or non-numeric score (NaN) is not
  modelled either.
- Concurrent read-modify-write races on mastery and progress are not
  modelled. Each handler runs alone.
- Request fields are optional strings, and "falsy" means absent or empty.
  Other falsy JavaScript values (`0`, `false`) are not modelled.
- `ReviewQueue.SelectForReview`: the database decides the order of rows with
  equal `next_review_at`. The model sorts them with a stable insertion sort.
  The contract does not depend on that choice.
- `SearchController.SearchContent`: save and log failures are modelled as
  the rows not being written. Their error codes are not modelled.
