/**
 * `classifyStyle`: validate the two request fields, translate the Spanish
 * text, classify the English text, and upsert the student's learning style.
 * Each phase runs only when the one before it succeeded. The translation
 * service, the classifier and the store are parameters giving their replies.
 */
module ClassificationController {
  import opened Wrappers
  import opened Text

  const MissingTextMessage := "El campo \"text_espanol\" es obligatorio."
  const MissingUserMessage := "El campo \"user_id\" es obligatorio para la persistencia."
  const TranslationFailedMessage := "Error en el servicio de traducción."
  const ClassifierFailedMessage := "Error al clasificar el texto con el modelo NLP."
  const PersistFailedMessage := "Error al persistir la clasificación en la DB."

  /** The style stored when the classifier's label is unusable. */
  const DefaultStyle := "Visual"

  /** The classifier's `estilo` field as a JavaScript value: a string or anything else. */
  datatype JsValue = JsString(s: string) | JsNonString

  datatype ClassifierReply = ClassifierFailed | ClassifierAnswered(estilo: JsValue)

  /** The upsert's reply: an error, or the returned rows' ids (possibly null). */
  datatype PersistReply = PersistFailed | PersistReturned(rows: Option<seq<string>>)

  /** A call the handler makes to a collaborator, with its argument. */
  datatype Call =
    | Translate(spanishText: string)
    | Classify(englishText: string)
    | Persist(id: string, learningStyle: string)

  datatype ClassifyResponse =
    | Classified(learningStyle: string, studentId: string, translatedText: string)
    | ClassifyError(status: nat, message: string)

  /**
   * A label that is not a string, or is empty, becomes "Visual"; any other
   * string passes through. The result is never empty.
   */
  function NormaliseLabel(estilo: JsValue): (style: string)
    ensures estilo.JsString? && |estilo.s| > 0 ==> style == estilo.s
    ensures !(estilo.JsString? && |estilo.s| > 0) ==> style == DefaultStyle
    ensures |style| > 0
  {
    match estilo
    case JsString(s) => if |s| == 0 then DefaultStyle else s
    case JsNonString => DefaultStyle
  }

  /** Normalising an already normalised label changes nothing. */
  lemma NormaliseLabelIdempotent(estilo: JsValue)
    ensures NormaliseLabel(JsString(NormaliseLabel(estilo))) == NormaliseLabel(estilo)
  {
  }

  /** The upsert counts as done only without error and with at least one returned row. */
  predicate Persisted(reply: PersistReply)
  {
    reply.PersistReturned? && reply.rows.Some? && |reply.rows.value| > 0
  }

  /**
   * The handler. `translation` is the translated text (`None` when the
   * translation call fails), `classifier` and `persist` the other two
   * replies. `calls` lists the collaborator calls made, in order.
   */
  method ClassifyStyle(textEspanol: Option<string>, userId: Option<string>, translation: Option<string>,
                       classifier: ClassifierReply, persist: PersistReply)
    returns (response: ClassifyResponse, calls: seq<Call>)
    ensures !Truthy(textEspanol) ==> response == ClassifyError(400, MissingTextMessage) && calls == []
    ensures Truthy(textEspanol) && !Truthy(userId) ==>
      response == ClassifyError(400, MissingUserMessage) && calls == []
    ensures Truthy(textEspanol) && Truthy(userId) && translation.None? ==>
      response == ClassifyError(500, TranslationFailedMessage) && calls == [Translate(textEspanol.value)]
    ensures Truthy(textEspanol) && Truthy(userId) && translation.Some? && classifier.ClassifierFailed? ==>
      && response == ClassifyError(500, ClassifierFailedMessage)
      && calls == [Translate(textEspanol.value), Classify(Trim(translation.value))]
    ensures Truthy(textEspanol) && Truthy(userId) && translation.Some? && classifier.ClassifierAnswered? ==>
      && calls == [Translate(textEspanol.value), Classify(Trim(translation.value)),
                   Persist(userId.value, NormaliseLabel(classifier.estilo))]
      && response == if Persisted(persist)
                     then Classified(NormaliseLabel(classifier.estilo), userId.value, Trim(translation.value))
                     else ClassifyError(500, PersistFailedMessage)
    ensures response.Classified? <==>
      Truthy(textEspanol) && Truthy(userId) && translation.Some? && classifier.ClassifierAnswered? && Persisted(persist)
  {
    calls := [];
    if !Truthy(textEspanol) {
      return ClassifyError(400, MissingTextMessage), calls;
    }
    if !Truthy(userId) {
      return ClassifyError(400, MissingUserMessage), calls;
    }
    var textoIngles := "";
    var estiloVak := "";
    var studentId := userId.value;

    // Phase 1: translation.
    calls := calls + [Translate(textEspanol.value)];
    if translation.None? {
      return ClassifyError(500, TranslationFailedMessage), calls;
    }
    textoIngles := Trim(translation.value);

    // Phase 2: classification, with the fallback label.
    calls := calls + [Classify(textoIngles)];
    if classifier.ClassifierFailed? {
      return ClassifyError(500, ClassifierFailedMessage), calls;
    }
    estiloVak := NormaliseLabel(classifier.estilo);

    // Phase 3: upsert of the student's style.
    calls := calls + [Persist(studentId, estiloVak)];
    if !Persisted(persist) {
      return ClassifyError(500, PersistFailedMessage), calls;
    }
    response := Classified(estiloVak, studentId, textoIngles);
  }
}
