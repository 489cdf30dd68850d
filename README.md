# Chatbot-RAG request decision core, in Dafny

This project models the request path of the chatbot backend, the AWS Lambda
`handler` of `tc-backend-python`. The handler:

1. Parses the API Gateway event body. A body that does not decode reads as `{}`.
2. Validates and cleans the user's message: type checks, strip, length bounds
   of 10–500, whitespace collapse, a set of forbidden characters, and a set of
   blocked phrases matched case-insensitively.
3. Collects two verdicts on the cleaned message: is the question poorly formed
   (a spaCy parse) and is it harmful (the OpenAI moderation endpoint).
4. Decides in a fixed order: unclear question, then harmful content, then the
   answer.
5. Runs the retrieval-augmented generation chain. `ChatService.process_message`
   turns any exception in the chain into an apology string.
6. Replaces the answer with a fixed text when its confidence is below the
   minimum, stamps the processing time, and wraps the result in the JSON
   response envelope. Any exception becomes a 500.

The confidence of an answer is the average of `exp(logprob)` over the model's
tokens, rounded to two decimals.

The project has six modules:

- `Values`: Python values as JSON values, and Python exceptions.
- `Text`: `str.strip`, the `\s+` collapse, substring search and lower-casing.
- `Validators`: `validators.py`.
- `ResponseHelpers`: `response_helpers.py`.
- `ChatService`: `chat_service.py`.
- `Chatbot`: `chatbot.py`.

The handler is a method (`Chatbot.Handler`) proved against the function
`Chatbot.Respond`. The dict that `process_message` returns, and that the
handler then edits in place, is the class `Chatbot.ChatbotResponse`. Its
`ToJson` is that dict as `success_response` serialises it. The
confidence accumulator loop is the method `ChatService.CalculateConfidence`,
proved against `ChatService.ConfidenceAsWritten`.

Two behaviours of the code are easy to misread, and the model follows the
code in both:

- When the generation chain fails, `process_message` builds an apology
  reply for the client (chat_service.py:54-59). The handler never delivers
  it. It indexes the apology string with `"confidence"` and answers 500
  instead (`Chatbot.DegradedGenerationIsServerError`).
- The 10–500 length bounds are checked on the stripped text before the
  whitespace collapse. A message such as `"a         b"` is therefore accepted
  as the three-character `"a b"` (`Validators.ShortAcceptedMessage`).

## Model

The first rows are the definitions that reproduce the source functions.
They have no contract of their own; the rows after them state their
properties.

| member | source | states |
|---|---|---|
| Validators.ValidateUserMessage | tc-backend-python/src/utils/validators.py:18-70 | Definition of `validate_user_message`, branch for branch; `(True, m, None)` is `Accepted(m)` and `(False, None, e)` is `Rejected(e)`. No contract of its own; its properties are in the StructuralChecks, RejectionOrder and AcceptedMessageIsClean rows. |
| Validators.ValidateText | tc-backend-python/src/utils/validators.py:46-70 | Definition of the checks `validate_user_message` applies to a string message, in the source's order. No contract of its own; see RejectionOrder, AcceptedMessageIsClean, ShortAcceptedMessage and ScriptIsNeverTheReason. |
| Validators.HasInvalidCharacter | tc-backend-python/src/utils/validators.py:15 | Definition of a search for any of the twelve characters of `INVALID_CHARACTERS_PATTERN`. No contract of its own; see InvalidCharacterSurvivesCollapse. |
| Validators.HasBlockedWord | tc-backend-python/src/utils/validators.py:66-67 | Definition of `any(word in message.lower() for word in BLOCKED_WORDS)`. No contract of its own; see RejectionOrder and AcceptedMessageIsClean. |
| Validators.FlaggedCategories | tc-backend-python/src/utils/validators.py:98 | Definition of the comprehension over the category pairs; it lists at most one name per category. Membership is stated in the FlaggedCategoriesExact row. |
| Validators.DetectHarmfulContent | tc-backend-python/src/utils/validators.py:72-106 | Definition of `detect_harmful_content` given the outcome of the moderation call. No contract of its own; see HarmfulReasonNamesCategories and ModerationFailsOpen. |
| Validators.IsPoorlyFormedQuestion | tc-backend-python/src/utils/validators.py:109-149 | Definition of `is_poorly_formed_question` given the outcome of the parse. No contract of its own; see PoorlyFormedCases, WellFormedIsMonotone and SubjectVerbNounIsWellFormed. |
| Validators.ValidateRequestMetricsData | tc-backend-python/src/utils/validators.py:159-163 | Definition of `validate_request_metrics_data`, with AttributeError for a body that is not a dict. No contract of its own; see MetricsCheckIff. |
| Text.Strip | tc-backend-python/src/utils/validators.py:47 | Definition of `str.strip()` over Python's whitespace set. No contract of its own; see StripShape, StripIdempotent and WordsStrip. |
| Text.Collapse | tc-backend-python/src/utils/validators.py:59 | Definition of `re.sub(r'\s+', ' ', s)`. No contract of its own; see CollapseKeepsText, CollapseJoinsWords, StripCollapseJoinsWords and CollapseIdempotent. |
| Text.Lower | tc-backend-python/src/utils/validators.py:66 | Definition of `str.lower()` on ASCII capitals and the Kelvin sign (see "Left out"). No contract of its own; see LowerIdempotent and LowerKeepsAngleBracket. |
| ResponseHelpers.CreateResponse | tc-backend-python/src/utils/response_helpers.py:3-21 | Definition of `create_response`. No contract of its own; see EnvelopeHeaders. |
| ResponseHelpers.SuccessResponse | tc-backend-python/src/utils/response_helpers.py:25-28 | Definition of `success_response`. No contract of its own; see SuccessKeepsPayload. |
| ResponseHelpers.ErrorResponse | tc-backend-python/src/utils/response_helpers.py:30-32 | Definition of `error_response`. No contract of its own; see ErrorRoundTrip and ErrorResponseInjective. |
| ChatService.ConfidenceAsWritten | tc-backend-python/src/services/chat/chat_service.py:61-85 | Definition of `_calculate_confidence` as written, including the UnboundLocalError. No contract of its own; see CalculateConfidence, ConfidenceOutcome and ConfidenceInUnitInterval. |
| ChatService.InvokeChain | tc-backend-python/src/services/chat/chat_service.py:24-30 | Definition of `chain.invoke`: retriever, then prompt, model and confidence stage, with the first exception ending the chain. No contract of its own; see ChainSuccessShape and MissingLogprobsGiveApology. |
| ChatService.ProcessMessage | tc-backend-python/src/services/chat/chat_service.py:35-59 | Definition of `process_message` given the outcome of the chain. No contract of its own; see ProcessMessageFallback and ProcessMessageSuccess. |
| Chatbot.GateConfidence | tc-backend-python/src/handlers/chatbot.py:57-59 | Definition of the confidence gate on the response dict. No contract of its own; see ApplyConfidenceGate, LowConfidenceReplacesContent and ConfidentAnswerKept. |
| Chatbot.StampProcessingTime | tc-backend-python/src/handlers/chatbot.py:63 | Definition of the processing-time stamp. No contract of its own; see SetProcessingTime and StatusCodes. |
| Chatbot.Respond | tc-backend-python/src/handlers/chatbot.py:13-69 | Definition of `handler`'s response, step for step. No contract of its own; see Handler and the Chatbot lemma rows. |
| Validators.StructuralChecks | tc-backend-python/src/utils/validators.py:35-44 | The structural checks run first, in order. A non-dict body, a missing `message` key and a non-string message each get their own error. Acceptance implies a dict with a string `message`. |
| Validators.RejectionOrder | tc-backend-python/src/utils/validators.py:47-68 | Each rejection reason holds if and only if its condition holds on the stripped text and all earlier checks passed. The order is: empty, shorter than 10, longer than 500, an invalid character, a blocked phrase. |
| Validators.InvalidCharacterSurvivesCollapse | tc-backend-python/src/utils/validators.py:59-63 | Collapsing whitespace neither adds nor removes an invalid character. |
| Validators.AcceptedMessageIsClean | tc-backend-python/src/utils/validators.py:47-70 | An accepted message is exactly the input's words joined by single spaces. It is therefore normalised: no outer spaces, only single `' '` separators, and the input's non-space text. It is non-empty and at most 500 characters. It contains no invalid character, and its lower-cased form contains no blocked phrase. |
| Validators.ShortAcceptedMessage | tc-backend-python/src/utils/validators.py:52-59 | `"a         b"` passes the length check and is accepted as `"a b"`, which is shorter than the minimum. |
| Validators.ScriptIsNeverTheReason | tc-backend-python/src/utils/validators.py:14-68 | A message containing `<` is never accepted and never rejected as prohibited content. Within the length bounds, it is rejected for invalid characters, so the `"<script>"` entry never decides anything. |
| Validators.HolaIsTooShort | tc-backend-python/src/utils/validators.py:52-53 | `{"message": "hola"}` is rejected as too short. |
| Validators.FlaggedCategoriesExact | tc-backend-python/src/utils/validators.py:98 | A name is in the flagged list if and only if it appears with a true flag among the categories. |
| Validators.HarmfulReasonNamesCategories | tc-backend-python/src/utils/validators.py:96-102 | The verdict equals the `flagged` flag. An unflagged result gives an empty reason, and a flagged result's reason names every flagged category. |
| Validators.ModerationFailsOpen | tc-backend-python/src/utils/validators.py:104-106 | A failed moderation call says "not harmful", with a non-empty reason that starts with the error prefix. |
| Validators.PoorlyFormedCases | tc-backend-python/src/utils/validators.py:129-149 | A question is poorly formed if and only if the analysis raises, or it has no verb, no noun-rooted chunk, or neither an explicit nor an implicit subject. |
| Validators.WellFormedIsMonotone | tc-backend-python/src/utils/validators.py:129-143 | Adding tokens and noun chunks to a well-formed analysis keeps it well formed. |
| Validators.SubjectVerbNounIsWellFormed | tc-backend-python/src/utils/validators.py:129-143 | A subject token, a verb token and a noun-rooted chunk make a question well formed. |
| Validators.ParseRequestBody | tc-backend-python/src/utils/validators.py:151-157 | Parsing raises if and only if the event has a body that is not a string, and then it raises TypeError. |
| Validators.UndecodableBodyIsEmpty | tc-backend-python/src/utils/validators.py:151-157 | A missing body and an undecodable body both read as `{}`, which the validator rejects as missing its message. |
| Validators.MetricsCheckIff | tc-backend-python/src/utils/validators.py:159-163 | A dict body passes if and only if all four required fields are present and truthy. Otherwise it fails with the fixed message. A non-dict body raises. |
| Text.StripShape | tc-backend-python/src/utils/validators.py:47 | The stripped text is a slice of the input. Only whitespace is cut away, and the result neither starts nor ends with whitespace. |
| Text.StripIdempotent | tc-backend-python/src/utils/validators.py:47 | Stripping twice equals stripping once. |
| Text.CollapseKeepsText | tc-backend-python/src/utils/validators.py:59 | The collapse keeps the non-whitespace characters, in order. |
| Text.CollapseNoLonger | tc-backend-python/src/utils/validators.py:59 | The collapse never lengthens its input. |
| Text.CollapseIdempotent | tc-backend-python/src/utils/validators.py:59 | Collapsing twice equals collapsing once. |
| Text.StripCollapseNormalized | tc-backend-python/src/utils/validators.py:47-59 | Strip followed by collapse yields a normalised text with the input's non-space characters. That text is exactly the input's words joined by single spaces. |
| Text.StripCollapseJoinsWords | tc-backend-python/src/utils/validators.py:47-59 | Strip followed by collapse equals the input's words (its maximal non-whitespace runs, in order) joined by `" "`. Every whitespace run between two words becomes one space in its place. |
| Text.CollapseJoinsWords | tc-backend-python/src/utils/validators.py:59 | On a text with no whitespace at either end, the collapse is its words joined by single spaces. |
| Text.WordsShape | tc-backend-python/src/utils/validators.py:59 | Every word is non-empty and holds no whitespace. |
| Text.WordsStrip | tc-backend-python/src/utils/validators.py:47 | Stripping keeps exactly the input's words. |
| Text.LowerIdempotent | tc-backend-python/src/utils/validators.py:66 | A lower-cased text holds no ASCII capital and no Kelvin sign, so lower-casing twice is lower-casing once. |
| Text.LowerKeepsAngleBracket | tc-backend-python/src/utils/validators.py:66 | A `<` is in the lower-cased text if and only if it is in the text. |
| Text.JoinContainsParts | tc-backend-python/src/utils/validators.py:99 | Every part occurs as a substring of the `", "`-joined text. |
| ResponseHelpers.EnvelopeHeaders | tc-backend-python/src/utils/response_helpers.py:3-21 | Every envelope has exactly the JSON content-type and the `*` CORS headers, and keeps its status and payload. |
| ResponseHelpers.SuccessKeepsPayload | tc-backend-python/src/utils/response_helpers.py:25-28 | A success envelope is a 200 with the payload unchanged. |
| ResponseHelpers.ErrorRoundTrip | tc-backend-python/src/utils/response_helpers.py:30-32 | An error envelope keeps its status, and its message reads back from `{"error": message}` unchanged. |
| ResponseHelpers.ErrorResponseInjective | tc-backend-python/src/utils/response_helpers.py:30-32 | Distinct status codes or messages give distinct error envelopes. |
| ResponseHelpers.ConvertDocumentsToDict | tc-backend-python/src/utils/response_helpers.py:34-42 | There is one dict per document, in order, holding its page content and metadata. |
| ResponseHelpers.ConvertDocumentsRoundTrip | tc-backend-python/src/utils/response_helpers.py:34-42 | The dicts read back to exactly the original documents, in order. |
| ChatService.CalculateConfidence | tc-backend-python/src/services/chat/chat_service.py:61-85 | The accumulator loop computes what `ConfidenceAsWritten` specifies: the rounded mean of `exp(logprob)`, or UnboundLocalError when there are no log-probabilities. |
| ChatService.ConfidenceOutcome | tc-backend-python/src/services/chat/chat_service.py:65-85 | The stage raises UnboundLocalError if and only if there are no log-probabilities. Otherwise it returns exactly `{content, confidence}`, with the model's text and the rounded mean. |
| ChatService.SumExpBounds | tc-backend-python/src/services/chat/chat_service.py:72-78 | With per-token probabilities in [0, 1], the accumulated total lies between 0 and the token count. |
| ChatService.ConfidenceInUnitInterval | tc-backend-python/src/services/chat/chat_service.py:72-79 | For log-probabilities that are never positive, the confidence lies in [0, 1]. |
| ChatService.IntendedConfidence | tc-backend-python/src/services/chat/chat_service.py:65-85 | The corrected stage never raises. |
| ChatService.IntendedConfidenceAgrees | tc-backend-python/src/services/chat/chat_service.py:65-85 | The corrected stage agrees with the written one wherever the written one returns. Without log-probabilities it reports confidence 1.0 and the model's text. |
| ChatService.ProcessMessageFallback | tc-backend-python/src/services/chat/chat_service.py:54-59 | Any chain exception gives exactly the apology string and no documents. That response is not a dict. |
| ChatService.ProcessMessageSuccess | tc-backend-python/src/services/chat/chat_service.py:40-53 | On success the response is the `content` attribute when there is one, and the value itself otherwise. The documents read back unchanged, in order. |
| ChatService.ChainSuccessShape | tc-backend-python/src/services/chat/chat_service.py:24-53 | Through the retriever → model → confidence chain, success yields the `{content, confidence}` dict and one dict per retrieved document. |
| ChatService.MissingLogprobsGiveApology | tc-backend-python/src/services/chat/chat_service.py:65-85 | A model reply without log-probabilities makes `process_message` return the apology, although the model answered. |
| Chatbot.ChatbotResponse.constructor | tc-backend-python/src/handlers/chatbot.py:54 | The handler's response object holds the dict `process_message` returned. |
| Chatbot.ChatbotResponse.ApplyConfidenceGate | tc-backend-python/src/handlers/chatbot.py:57-59 | The in-place gate leaves the documents unchanged. On success the response is the gated one. On an exception it reports the error and the response is unchanged. |
| Chatbot.ChatbotResponse.SetProcessingTime | tc-backend-python/src/handlers/chatbot.py:61-63 | Stamping adds `processing_time` in place, or reports the error and changes nothing. The documents are unchanged either way. |
| Chatbot.Handler | tc-backend-python/src/handlers/chatbot.py:13-69 | The handler returns the response `Respond` specifies for the event, the collaborators, the settings and the elapsed time. |
| Chatbot.RejectedMessageStartsNoTask | tc-backend-python/src/handlers/chatbot.py:24-30 | An invalid message gets a 400 with the validator's error, whatever the classifiers and the chain would give. |
| Chatbot.UnclearQuestionTakesPrecedence | tc-backend-python/src/handlers/chatbot.py:41-47 | A poorly formed question gets a 400 with the clarification text, whatever the moderation says. |
| Chatbot.HarmfulMessageRejected | tc-backend-python/src/handlers/chatbot.py:49-52 | A well-formed but flagged message gets a 400 `Message is harmful (...)` naming every flagged category. |
| Chatbot.ModerationOutageFailsOpen | tc-backend-python/src/handlers/chatbot.py:42-54 | A failed moderation call gives the same response as a clean moderation result. |
| Chatbot.LowConfidenceReplacesContent | tc-backend-python/src/handlers/chatbot.py:54-65 | A confidence below the minimum gives a 200. Only `content` is replaced by the low-confidence text: the confidence, the other keys and the documents are kept, and the processing time is added. |
| Chatbot.ConfidentAnswerKept | tc-backend-python/src/handlers/chatbot.py:54-65 | A confidence at or above the minimum gives a 200 with the answer unchanged apart from the added processing time. |
| Chatbot.StatusCodes | tc-backend-python/src/handlers/chatbot.py:19-69 | The handler answers only 200, 400 or 500, always with the JSON headers. A 200 carries the processing time, and every other status carries an error message. |
| Chatbot.DegradedGenerationIsServerError | tc-backend-python/src/handlers/chatbot.py:54-69 | When the chain raises, the handler answers 500 with Python's "string indices must be integers" message. |
| Chatbot.MissingLogprobsIsServerError | tc-backend-python/src/handlers/chatbot.py:54-69 | With the stage as written, a successful retrieval and generation without log-probabilities still ends in a 500. |
| Chatbot.IntendedStageAnswers | tc-backend-python/src/services/chat/chat_service.py:65-69 | With the corrected stage, the same request is answered 200. The body holds the model's text, confidence 1.0, the processing time and the retrieved documents. |
| Chatbot.HolaScenario | tc-backend-python/src/handlers/chatbot.py:24-30 | The event with body `{"message": "hola"}` gets a 400 with the too-short message. |

## Left out

- Thread pool: the pool, its futures and the `cancel()` calls are not modelled. The three tasks are functions of the cleaned message. Both verdicts are always read before deciding, as the code does.
- Foreign services: spaCy, the OpenAI moderation client, LangChain, PGVector and the language-model providers are not modelled. Their outcomes are inputs: a token analysis, a moderation result or exception, retrieved documents, and an `AIMessage` with optional log-probabilities.
- `ChatService.__init__`: the chain it builds is modelled as `ChatService.InvokeChain`. The retriever runs first, then the prompt, the model and the confidence stage. The prompt templates are not modelled.
- Floating point: numbers are reals. `math.exp` and `round(_, 2)` are parameters, so the binary rounding of the sum and the mean is not modelled.
- Time: `time.time` is not called; the elapsed time is a parameter.
- JSON text: the text encoding of `json.dumps` and `json.loads` is not modelled. Envelope bodies are JSON values, and `json.loads` is a parameter that either decodes or fails.
- Dict order: the ordering of dict keys is lost, because dicts are maps.
- Int versus float: ints and floats are one number type. Booleans compare as numbers in the confidence check.
- Lower-casing: `Text.Lower` folds ASCII capitals and the Kelvin sign (U+212A, lower-cased to `k`) and leaves every other character unchanged. Python also lower-cases U+0130 (capital I with dot) to `i` followed by U+0307. No other character lower-cases to text containing an ASCII letter, the space or `<`. The one blocked phrase with an `i` is `"<script>"`, and it also contains `<`. A message containing `<` is rejected for its characters before the blocked phrases are checked (`Validators.ScriptIsNeverTheReason`). So U+0130 never decides the check, and the blocked-phrase verdict of the model matches Python's.
- Exception messages: they follow CPython 3.12 wording. Only exceptions derived from `Exception` are modelled.
- Constants: `MINIMUM_SCORE_CONFIDENCE`, `RESPONSE_FOR_LOW_CONFIDENCE` and `RESPONSE_FOR_UNCLEAR_QUESTION` come from a constants module that is not part of this model, so they are the fields of `Chatbot.Settings`.
- Moderation categories: they are (name, flag) pairs. A `None` flag counts as false.
- Logging and secrets: not modelled. Logging has no effect on results, and loading secrets happens at import time.
- Other handlers and the UI: the metrics handler (`handlers/metrics.py`) and the React UI are outside the modelled core. The metrics body check itself is modelled.

## Findings

| source | as written | input that shows it | evidently intended | confidence | as-written member | corrected member |
|---|---|---|---|---|---|---|
| tc-backend-python/src/services/chat/chat_service.py:67-85 | Without log-probabilities only `confidence` is assigned, but the return reads `rounded_confidence`, which raises UnboundLocalError. `process_message` then returns the apology string, and the handler's `["confidence"]` on that string makes the request a 500. | A model reply whose `response_metadata` has no `logprobs`, with retrieval and generation both succeeding | Return `{"content": ..., "confidence": 1.0}`, the default the branch assigns | high; not executed | ChatService.ConfidenceAsWritten, Chatbot.MissingLogprobsIsServerError | ChatService.IntendedConfidence, Chatbot.IntendedStageAnswers |
