/** The chatbot Lambda handler (tc-backend-python/src/handlers/chatbot.py):
    parse and validate the request, take the question check and the
    moderation result, in that order, then decide with a fixed precedence,
    gate the answer on its confidence and stamp the processing time. The
    three tasks the thread pool runs are pure functions of the cleaned
    message here; the pool, its futures and their cancellation are not
    modelled. */
module Chatbot {
  import opened Values
  import opened Text
  import opened Validators
  import opened ResponseHelpers
  import opened ChatService

  /** The collaborators the handler calls: `json.loads`, the spaCy parse,
      the moderation endpoint and the generation chain, each as the outcome
      it gives for a string. */
  datatype Services = Services(
    loads: string -> Loaded,
    analyze: string -> Fallible<Analysis>,
    moderate: string -> Fallible<Moderation>,
    chain: string -> Fallible<ChainOutput>)

  /** `MINIMUM_SCORE_CONFIDENCE`, `RESPONSE_FOR_LOW_CONFIDENCE` and
      `RESPONSE_FOR_UNCLEAR_QUESTION`. */
  datatype Settings = Settings(minimumConfidence: real, lowConfidenceText: string, unclearQuestionText: string)

  /** The confidence gate on `chatbot_response["response"]`: read its
      `confidence`, compare it with the minimum, and replace `content` when it
      is strictly below. */
  function GateConfidence(response: Json, minimum: real, lowText: string): Fallible<Json> {
    match Subscript(response, "confidence")
    case Raised(e) => Raised(e)
    case Ok(confidence) =>
      match LessThan(confidence, minimum)
      case Raised(e) => Raised(e)
      case Ok(low) => if low then SetItem(response, "content", JStr(lowText)) else Ok(response)
  }

  /** `chatbot_response["response"]["processing_time"] = total_time`. */
  function StampProcessingTime(response: Json, elapsed: real): Fallible<Json> {
    SetItem(response, "processing_time", JNum(elapsed))
  }

  /** The dict `process_message` returned, which the handler finishes in
      place. */
  class ChatbotResponse {
    var response: Json
    var documents: seq<Json>

    constructor (result: ProcessResult)
      ensures response == result.response && documents == result.documents
    {
      response := result.response;
      documents := result.documents;
    }

    /** The dict as `success_response` serialises it. */
    function ToJson(): Json
      reads this
    {
      JObj(map["response" := response, "documents" := JArr(documents)])
    }

    /** The handler's confidence gate, applied in place: on success the
        response becomes the gated one; on an exception nothing changes. The
        documents never change. */
    method ApplyConfidenceGate(minimum: real, lowText: string) returns (failure: Option<Exception>)
      modifies this
      ensures documents == old(documents)
      ensures GateConfidence(old(response), minimum, lowText).Ok? ==>
        failure == None && response == GateConfidence(old(response), minimum, lowText).value
      ensures GateConfidence(old(response), minimum, lowText).Raised? ==>
        failure == Some(GateConfidence(old(response), minimum, lowText).error) && response == old(response)
    {
      var confidence := Subscript(response, "confidence");
      if confidence.Raised? {
        return Some(confidence.error);
      }
      var low := LessThan(confidence.value, minimum);
      if low.Raised? {
        return Some(low.error);
      }
      if low.value {
        // `response` is a dict here, since reading its `confidence` succeeded
        response := SetItem(response, "content", JStr(lowText)).value;
      }
      failure := None;
    }

    /** The handler's last step, applied in place: record the processing
        time in the response. */
    method SetProcessingTime(elapsed: real) returns (failure: Option<Exception>)
      modifies this
      ensures documents == old(documents)
      ensures StampProcessingTime(old(response), elapsed).Ok? ==>
        failure == None && response == StampProcessingTime(old(response), elapsed).value
      ensures StampProcessingTime(old(response), elapsed).Raised? ==>
        failure == Some(StampProcessingTime(old(response), elapsed).error) && response == old(response)
    {
      var updated := SetItem(response, "processing_time", JNum(elapsed));
      if updated.Raised? {
        return Some(updated.error);
      }
      response := updated.value;
      failure := None;
    }
  }

  const HarmfulOpen := "Message is harmful ("

  /** The response `handler` returns for an event, given its collaborators,
      its settings and the elapsed time it measures. */
  function Respond(event: map<string, Json>, services: Services, settings: Settings, elapsed: real): Response {
    match ParseRequestBody(event, services.loads)
    case Raised(e) => ErrorResponse(500, e.message)
    case Ok(body) =>
      match ValidateUserMessage(body)
      case Rejected(error) => ErrorResponse(400, error)
      case Accepted(message) =>
        var poorlyFormed := IsPoorlyFormedQuestion(services.analyze(message));
        var (harmful, reason) := DetectHarmfulContent(services.moderate(message));
        if poorlyFormed then ErrorResponse(400, settings.unclearQuestionText)
        else if harmful then ErrorResponse(400, HarmfulOpen + reason + ")")
        else
          var result := ProcessMessage(services.chain(message));
          match GateConfidence(result.response, settings.minimumConfidence, settings.lowConfidenceText)
          case Raised(e) => ErrorResponse(500, e.message)
          case Ok(gated) =>
            match StampProcessingTime(gated, elapsed)
            case Raised(e) => ErrorResponse(500, e.message)
            case Ok(finished) =>
              SuccessResponse(JObj(map["response" := finished, "documents" := JArr(result.documents)]))
  }

  /** `handler(event, context)`. */
  method Handler(event: map<string, Json>, services: Services, settings: Settings, elapsed: real)
    returns (resp: Response)
    ensures resp == Respond(event, services, settings, elapsed)
  {
    var body := ParseRequestBody(event, services.loads);
    if body.Raised? {
      return ErrorResponse(500, body.error.message);
    }
    var validation := ValidateUserMessage(body.value);
    if validation.Rejected? {
      return ErrorResponse(400, validation.error);
    }
    var userMessage := validation.message;
    // the question check is awaited first, then the moderation result
    var poorlyFormed := IsPoorlyFormedQuestion(services.analyze(userMessage));
    var moderation := DetectHarmfulContent(services.moderate(userMessage));
    var harmful, reason := moderation.0, moderation.1;
    if poorlyFormed {
      return ErrorResponse(400, settings.unclearQuestionText);
    }
    if harmful {
      return ErrorResponse(400, HarmfulOpen + reason + ")");
    }
    var chatbotResponse := new ChatbotResponse(ProcessMessage(services.chain(userMessage)));
    var failure := chatbotResponse.ApplyConfidenceGate(settings.minimumConfidence, settings.lowConfidenceText);
    if failure.Some? {
      return ErrorResponse(500, failure.value.message);
    }
    failure := chatbotResponse.SetProcessingTime(elapsed);
    if failure.Some? {
      return ErrorResponse(500, failure.value.message);
    }
    resp := SuccessResponse(chatbotResponse.ToJson());
  }

  // ---------------------------------------------------------------------
  // Properties of the handler

  /** The event parses to a body that validates to `message`. */
  predicate AcceptedAs(event: map<string, Json>, loads: string -> Loaded, message: string) {
    && ParseRequestBody(event, loads).Ok?
    && ValidateUserMessage(ParseRequestBody(event, loads).value) == Accepted(message)
  }

  /** A rejected message is answered with 400 and the validator's message,
      and none of the three tasks' results is consulted: the response is the
      same whatever they would give. */
  lemma RejectedMessageStartsNoTask(
    event: map<string, Json>, s1: Services, s2: Services, settings: Settings, elapsed: real, error: string)
    requires s1.loads == s2.loads
    requires ParseRequestBody(event, s1.loads).Ok?
    requires ValidateUserMessage(ParseRequestBody(event, s1.loads).value) == Rejected(error)
    ensures Respond(event, s1, settings, elapsed) == ErrorResponse(400, error)
    ensures Respond(event, s1, settings, elapsed) == Respond(event, s2, settings, elapsed)
  {
  }

  /** A poorly formed question is answered with 400 and the clarification
      text, whatever the moderation says. */
  lemma UnclearQuestionTakesPrecedence(
    event: map<string, Json>, services: Services, settings: Settings, elapsed: real, message: string)
    requires AcceptedAs(event, services.loads, message)
    requires IsPoorlyFormedQuestion(services.analyze(message))
    ensures Respond(event, services, settings, elapsed) == ErrorResponse(400, settings.unclearQuestionText)
  {
  }

  /** A well-formed question the moderation flags is answered with 400 and
      `Message is harmful (<reason>)`, whose reason names every flagged
      category. */
  lemma HarmfulMessageRejected(
    event: map<string, Json>, services: Services, settings: Settings, elapsed: real, message: string,
    result: Moderation)
    requires AcceptedAs(event, services.loads, message)
    requires !IsPoorlyFormedQuestion(services.analyze(message))
    requires services.moderate(message) == Ok(result) && result.flagged
    ensures var r := Respond(event, services, settings, elapsed);
      && r.statusCode == 400
      && r == ErrorResponse(400, HarmfulOpen + DetectHarmfulContent(Ok(result)).1 + ")")
      && forall name :: (name, true) in result.categories ==> IsSubstring(name, ErrorMessageOf(r).value)
  {
    var reason := DetectHarmfulContent(Ok(result)).1;
    HarmfulReasonNamesCategories(result);
    ErrorRoundTrip(400, HarmfulOpen + reason + ")");
    forall name | (name, true) in result.categories
      ensures IsSubstring(name, HarmfulOpen + reason + ")")
    {
      SubstringOfSuffix(name, HarmfulOpen, reason);
      SubstringOfPrefix(name, HarmfulOpen + reason, ")");
    }
  }

  /** A failed moderation call does not block: the response is the one a
      clean moderation result would have given. */
  lemma ModerationOutageFailsOpen(
    event: map<string, Json>, services: Services, settings: Settings, elapsed: real, message: string,
    e: Exception, clean: Moderation)
    requires AcceptedAs(event, services.loads, message)
    requires services.moderate(message) == Raised(e)
    requires !clean.flagged
    ensures Respond(event, services, settings, elapsed)
         == Respond(event, services.(moderate := m => if m == message then Ok(clean) else services.moderate(m)),
                    settings, elapsed)
  {
  }

  /** The processed result of an accepted, well-formed, harmless message. */
  predicate ReachesGate(services: Services, message: string) {
    && !IsPoorlyFormedQuestion(services.analyze(message))
    && !DetectHarmfulContent(services.moderate(message)).0
  }

  /** A confidence strictly below the minimum replaces only the content:
      the confidence and the documents are kept, and the processing time is
      added; the status is 200. */
  lemma LowConfidenceReplacesContent(
    event: map<string, Json>, services: Services, settings: Settings, elapsed: real, message: string,
    fields: map<string, Json>, documents: seq<Document>, confidence: real)
    requires AcceptedAs(event, services.loads, message) && ReachesGate(services, message)
    requires services.chain(message) == Ok(ChainOutput(Plain(JObj(fields)), documents))
    requires "confidence" in fields && fields["confidence"] == JNum(confidence)
    requires confidence < settings.minimumConfidence
    ensures var r := Respond(event, services, settings, elapsed);
      var response := r.body.fields["response"];
      && r.statusCode == 200
      && r.body.JObj? && r.body.fields.Keys == {"response", "documents"}
      && response.JObj? && response.fields.Keys == fields.Keys + {"content", "processing_time"}
      && response.fields["content"] == JStr(settings.lowConfidenceText)
      && response.fields["confidence"] == JNum(confidence)
      && response.fields["processing_time"] == JNum(elapsed)
      && (forall k :: k in fields && k != "content" && k != "processing_time" ==> response.fields[k] == fields[k])
      && r.body.fields["documents"] == JArr(ConvertDocumentsToDict(documents))
  {
  }

  /** A confidence at or above the minimum leaves the answer untouched; only
      the processing time is added. */
  lemma ConfidentAnswerKept(
    event: map<string, Json>, services: Services, settings: Settings, elapsed: real, message: string,
    fields: map<string, Json>, documents: seq<Document>, confidence: real)
    requires AcceptedAs(event, services.loads, message) && ReachesGate(services, message)
    requires services.chain(message) == Ok(ChainOutput(Plain(JObj(fields)), documents))
    requires "confidence" in fields && fields["confidence"] == JNum(confidence)
    requires settings.minimumConfidence <= confidence
    ensures var r := Respond(event, services, settings, elapsed);
      && r.statusCode == 200
      && r.body == JObj(map[
           "response" := JObj(fields["processing_time" := JNum(elapsed)]),
           "documents" := JArr(ConvertDocumentsToDict(documents))])
  {
  }

  /** The handler only ever answers 200, 400 or 500, and a 200 always
      carries a response dict with its processing time. */
  lemma StatusCodes(event: map<string, Json>, services: Services, settings: Settings, elapsed: real)
    ensures var r := Respond(event, services, settings, elapsed);
      && r.statusCode in {200, 400, 500}
      && r.headers == JsonHeaders
      && (r.statusCode == 200 ==>
            && r.body.JObj? && "response" in r.body.fields
            && r.body.fields["response"].JObj?
            && "processing_time" in r.body.fields["response"].fields
            && r.body.fields["response"].fields["processing_time"] == JNum(elapsed))
      && (r.statusCode != 200 ==> ErrorMessageOf(r).Some?)
  {
    var r := Respond(event, services, settings, elapsed);
    var body := ParseRequestBody(event, services.loads);
    if body.Raised? {
      ErrorRoundTrip(500, body.error.message);
      return;
    }
    var validation := ValidateUserMessage(body.value);
    if validation.Rejected? {
      ErrorRoundTrip(400, validation.error);
      return;
    }
    var message := validation.message;
    var reason := DetectHarmfulContent(services.moderate(message)).1;
    if IsPoorlyFormedQuestion(services.analyze(message)) {
      ErrorRoundTrip(400, settings.unclearQuestionText);
      return;
    }
    if DetectHarmfulContent(services.moderate(message)).0 {
      ErrorRoundTrip(400, HarmfulOpen + reason + ")");
      return;
    }
    var result := ProcessMessage(services.chain(message));
    var gated := GateConfidence(result.response, settings.minimumConfidence, settings.lowConfidenceText);
    if gated.Raised? {
      ErrorRoundTrip(500, gated.error.message);
      return;
    }
    var finished := StampProcessingTime(gated.value, elapsed);
    if finished.Raised? {
      ErrorRoundTrip(500, finished.error.message);
      return;
    }
    assert r == SuccessResponse(JObj(map["response" := finished.value, "documents" := JArr(result.documents)]));
  }

  /** A chain that raises degrades to the apology string in
      `process_message`, and indexing that string with `"confidence"` makes
      the handler answer 500. */
  lemma DegradedGenerationIsServerError(
    event: map<string, Json>, services: Services, settings: Settings, elapsed: real, message: string,
    e: Exception)
    requires AcceptedAs(event, services.loads, message) && ReachesGate(services, message)
    requires services.chain(message) == Raised(e)
    ensures var r := Respond(event, services, settings, elapsed);
      && r.statusCode == 500
      && r == ErrorResponse(500, "string indices must be integers, not 'str'")
  {
  }

  /** The generation chain as the service builds it, with the confidence
      stage as written or as intended. */
  function ServiceChain(
    retrieve: string -> Fallible<seq<Document>>,
    generate: string -> seq<Document> -> Fallible<AIMessage>,
    stage: AIMessage -> Fallible<Json>): string -> Fallible<ChainOutput>
  {
    m => InvokeChain(retrieve(m), generate(m), stage)
  }

  /** As written, a model reply without log-probabilities (every reply of a
      provider that does not report them) ends in a 500, although the
      retrieval and the generation succeeded. */
  lemma MissingLogprobsIsServerError(
    event: map<string, Json>, services: Services, settings: Settings, elapsed: real, message: string,
    retrieve: string -> Fallible<seq<Document>>, generate: string -> seq<Document> -> Fallible<AIMessage>,
    exp: real -> real, round2: real -> real, documents: seq<Document>, output: AIMessage)
    requires AcceptedAs(event, services.loads, message) && ReachesGate(services, message)
    requires services.chain == ServiceChain(retrieve, generate, o => ConfidenceAsWritten(o, exp, round2))
    requires retrieve(message) == Ok(documents) && generate(message)(documents) == Ok(output)
    requires !HasLogprobs(output)
    ensures Respond(event, services, settings, elapsed).statusCode == 500
  {
    MissingLogprobsGiveApology(documents, output, generate(message), exp, round2);
  }

  /** With the intended confidence stage, the same reply is answered with
      200 and the model's own text whenever the minimum is at most 1.0. */
  lemma IntendedStageAnswers(
    event: map<string, Json>, services: Services, settings: Settings, elapsed: real, message: string,
    retrieve: string -> Fallible<seq<Document>>, generate: string -> seq<Document> -> Fallible<AIMessage>,
    exp: real -> real, round2: real -> real, documents: seq<Document>, output: AIMessage)
    requires AcceptedAs(event, services.loads, message) && ReachesGate(services, message)
    requires services.chain == ServiceChain(retrieve, generate, o => IntendedConfidence(o, exp, round2))
    requires retrieve(message) == Ok(documents) && generate(message)(documents) == Ok(output)
    requires !HasLogprobs(output)
    requires settings.minimumConfidence <= 1.0
    ensures var r := Respond(event, services, settings, elapsed);
      && r.statusCode == 200
      && r.body == JObj(map[
           "response" := JObj(map[
             "content" := JStr(output.content),
             "confidence" := JNum(1.0),
             "processing_time" := JNum(elapsed)]),
           "documents" := JArr(ConvertDocumentsToDict(documents))])
  {
    var fields := map["content" := JStr(output.content), "confidence" := JNum(1.0)];
    assert services.chain(message) == Ok(ChainOutput(Plain(JObj(fields)), documents));
    ConfidentAnswerKept(event, services, settings, elapsed, message, fields, documents, 1.0);
  }

  /** `"hola"` is answered with 400 and the too-short message. */
  lemma HolaScenario(services: Services, settings: Settings, elapsed: real, text: string)
    requires services.loads(text) == Parsed(JObj(map["message" := JStr("hola")]))
    ensures Respond(map["body" := JStr(text)], services, settings, elapsed) == ErrorResponse(400, TooShortError)
  {
    HolaIsTooShort();
  }
}
