/**
 * `searchContent`, the content-agent endpoint: validate the request, look up
 * the student's learning style, build the prompt, generate through
 * `FetchWithRetry`, then save the topic and write a search log, neither of
 * which can change the response. Every storage result is a parameter.
 */
module SearchController {
  import opened Wrappers
  import opened Text
  import opened RetryPolicy
  import opened PromptBuilder
  import opened MasteryScheduler

  const MissingFieldsMessage := "Se requieren el \"topic\" y el \"student_id\"."
  const StudentNotFoundMessage := "Estudiante no encontrado. El test VAK debe ser completado primero."
  const ContentFailedMessage := "Error al obtener el estilo VAK o generar el contenido adaptado."

  /** The store's error code for "no rows", which is not treated as a failure. */
  const NoRowsCode := "PGRST116"

  /** The `students` row's `learning_style` column (possibly null). */
  datatype StudentRow = StudentRow(learningStyle: Option<string>)

  /** The single-row lookup's reply: the row, if any, and the error code, if any. */
  datatype StudentLookup = StudentLookup(data: Option<StudentRow>, errorCode: Option<string>)

  datatype SearchResponse =
    | ContentGenerated(styleUsed: Option<string>, content: string)
    | SearchError(status: nat, message: string)

  /** The `learning_topics` row saved for spaced review. */
  datatype SavedTopic = SavedTopic(
    studentId: string,
    topicName: string,
    contentGenerated: string,
    difficultyLevel: int,
    reviewInDays: nat)

  /** The `agent_logs` row; `responseLength` counts UTF-16 code units, as JavaScript does. */
  datatype AgentLog = AgentLog(studentId: string, searchTopic: string, styleUsed: Option<string>, responseLength: nat)

  /** A lookup error other than "no rows" is thrown and ends in 500. */
  predicate LookupFailed(lookup: StudentLookup)
  {
    lookup.errorCode.Some? && lookup.errorCode.value != NoRowsCode
  }

  /**
   * The handler. `generation` and `jitter` feed the retry loop (with its
   * default of five attempts); `saveOk` and `logOk` say whether the topic
   * insert and the log insert succeed. Outputs besides the response: whether
   * the student was looked up, the prompt sent, how many generation calls were
   * made, and the topic row and log row that were written.
   */
  method SearchContent(topic: Option<string>, studentId: Option<string>, lookup: StudentLookup,
                       generation: seq<Outcome<string>>, jitter: seq<Jitter>, saveOk: bool, logOk: bool)
    returns (response: SearchResponse, lookedUp: bool, prompt: Option<string>, calls: nat,
             saved: Option<SavedTopic>, log: Option<AgentLog>)
    requires Supplied(generation, jitter, DefaultMaxRetries)
    ensures !Truthy(topic) || !Truthy(studentId) ==>
      response == SearchError(400, MissingFieldsMessage) && !lookedUp && prompt.None? && calls == 0
    ensures Truthy(topic) && Truthy(studentId) ==> lookedUp
    ensures Truthy(topic) && Truthy(studentId) && LookupFailed(lookup) ==>
      response == SearchError(500, ContentFailedMessage) && prompt.None? && calls == 0
    ensures Truthy(topic) && Truthy(studentId) && !LookupFailed(lookup) && lookup.data.None? ==>
      response == SearchError(404, StudentNotFoundMessage) && prompt.None? && calls == 0
    ensures Truthy(topic) && Truthy(studentId) && !LookupFailed(lookup) && lookup.data.Some? ==>
      var style := lookup.data.value.learningStyle;
      var run := Run(generation, jitter, DefaultMaxRetries);
      && prompt == Some(BuildVAKPrompt(style, topic.value))
      && calls == run.invocations
      && response == if run.result.Returned? then ContentGenerated(style, run.result.response)
                     else SearchError(500, ContentFailedMessage)
    ensures response.ContentGenerated? <==>
      && Truthy(topic) && Truthy(studentId) && !LookupFailed(lookup) && lookup.data.Some?
      && Run(generation, jitter, DefaultMaxRetries).result.Returned?
    ensures saved == if response.ContentGenerated? && saveOk
      then Some(SavedTopic(studentId.value, topic.value, response.content, 1, OnboardingIntervalDays)) else None
    ensures log == if response.ContentGenerated? && logOk
      then Some(AgentLog(studentId.value, topic.value, response.styleUsed, Utf16Length(response.content))) else None
  {
    lookedUp, prompt, calls, saved, log := false, None, 0, None, None;
    if !Truthy(topic) || !Truthy(studentId) {
      response := SearchError(400, MissingFieldsMessage);
      return;
    }

    // Phase 1: the student's learning style.
    lookedUp := true;
    if LookupFailed(lookup) {
      response := SearchError(500, ContentFailedMessage);
      return;
    }
    if lookup.data.None? {
      response := SearchError(404, StudentNotFoundMessage);
      return;
    }
    var style := lookup.data.value.learningStyle;
    prompt := Some(BuildVAKPrompt(style, topic.value));

    // Phase 2: generation. A thrown error, or no response at all, is a 500.
    var result, invocations, _ := FetchWithRetry(generation, jitter, DefaultMaxRetries);
    calls := invocations;
    if !result.Returned? {
      response := SearchError(500, ContentFailedMessage);
      return;
    }
    var content := result.response;
    if saveOk {
      saved := Some(SavedTopic(studentId.value, topic.value, content, 1, OnboardingIntervalDays));
    }

    // Phase 3: the search log, whose failure is only logged.
    if logOk {
      log := Some(AgentLog(studentId.value, topic.value, style, Utf16Length(content)));
    }
    response := ContentGenerated(style, content);
  }
}
