/** The result shaping of the chat service
    (tc-backend-python/src/services/chat/chat_service.py): the confidence
    stage at the end of the generation chain, the chain's composition, and
    `process_message`'s mapping of the chain's outcome to one of two dict
    shapes. The retriever, the prompt and the language model are foreign;
    `math.exp` and `round(_, 2)` are passed in as functions. */
module ChatService {
  import opened Values
  import opened ResponseHelpers

  /** The language model's reply: its text and, when the provider reports
      them, the log-probabilities of its tokens (`None` when the `logprobs`
      metadata is missing or falsy or has no `content` list). */
  datatype AIMessage = AIMessage(content: string, logprobs: Option<seq<real>>)

  predicate HasLogprobs(output: AIMessage) {
    output.logprobs.Some? && output.logprobs.value != []
  }

  /** The sum of `exp(logprob)` over the tokens. */
  function SumExp(exp: real -> real, logprobs: seq<real>): real
    decreases |logprobs|
  {
    if logprobs == [] then 0.0
    else SumExp(exp, logprobs[..|logprobs| - 1]) + exp(logprobs[|logprobs| - 1])
  }

  /** The dict the confidence stage returns. */
  function ConfidenceDict(content: string, confidence: real): Json {
    JObj(map["content" := JStr(content), "confidence" := JNum(confidence)])
  }

  const UnboundConfidence :=
    Exception(UnboundLocalError, "cannot access local variable 'rounded_confidence' where it is not associated with a value")

  /** `_calculate_confidence` as written: on the branch without
      log-probabilities only `confidence` is assigned, and the return reads
      the unassigned `rounded_confidence`. */
  function ConfidenceAsWritten(output: AIMessage, exp: real -> real, round2: real -> real): Fallible<Json> {
    if !HasLogprobs(output) then Raised(UnboundConfidence)
    else
      var logprobs := output.logprobs.value;
      Ok(ConfidenceDict(output.content, round2(SumExp(exp, logprobs) / |logprobs| as real)))
  }

  /** `_calculate_confidence`, with its accumulator loop. */
  method CalculateConfidence(output: AIMessage, exp: real -> real, round2: real -> real)
    returns (r: Fallible<Json>)
    ensures r == ConfidenceAsWritten(output, exp, round2)
  {
    if output.logprobs.None? || output.logprobs.value == [] {
      // only `confidence = 1.0` is assigned on this branch
      r := Raised(UnboundConfidence);
    } else {
      var logprobs := output.logprobs.value;
      var total := 0.0;
      var i := 0;
      while i < |logprobs|
        invariant 0 <= i <= |logprobs|
        invariant total == SumExp(exp, logprobs[..i])
      {
        assert logprobs[..i + 1][..i] == logprobs[..i];
        total := total + exp(logprobs[i]);
        i := i + 1;
      }
      assert logprobs[..i] == logprobs;
      var confidence := total / |logprobs| as real;
      r := Ok(ConfidenceDict(output.content, round2(confidence)));
    }
  }

  /** The confidence stage as evidently intended: without log-probabilities
      the default confidence 1.0 is returned. */
  function IntendedConfidence(output: AIMessage, exp: real -> real, round2: real -> real): (r: Fallible<Json>)
    ensures r.Ok?
  {
    if !HasLogprobs(output) then Ok(ConfidenceDict(output.content, 1.0))
    else ConfidenceAsWritten(output, exp, round2)
  }

  // ---------------------------------------------------------------------
  // Properties of the confidence stage

  /** As written, the stage raises exactly when there are no
      log-probabilities; otherwise it returns a dict with exactly `content`,
      the model's text, and `confidence`, the rounded average of the token
      probabilities (the average divides by a non-zero token count). */
  lemma ConfidenceOutcome(output: AIMessage, exp: real -> real, round2: real -> real)
    ensures ConfidenceAsWritten(output, exp, round2).Raised? <==> !HasLogprobs(output)
    ensures !HasLogprobs(output) ==>
      ConfidenceAsWritten(output, exp, round2).error.kind == UnboundLocalError
    ensures HasLogprobs(output) ==>
      var v := ConfidenceAsWritten(output, exp, round2).value;
      var n := |output.logprobs.value|;
      && v.JObj? && v.fields.Keys == {"content", "confidence"}
      && v.fields["content"] == JStr(output.content)
      && v.fields["confidence"] == JNum(round2(SumExp(exp, output.logprobs.value) / n as real))
  {
  }

  /** Every token probability in [0, 1] keeps their sum between 0 and the
      token count. */
  lemma {:induction false} SumExpBounds(exp: real -> real, logprobs: seq<real>)
    requires forall k :: 0 <= k < |logprobs| ==> 0.0 <= exp(logprobs[k]) <= 1.0
    ensures 0.0 <= SumExp(exp, logprobs) <= |logprobs| as real
    decreases |logprobs|
  {
    if logprobs != [] {
      var init := logprobs[..|logprobs| - 1];
      assert forall k :: 0 <= k < |init| ==> init[k] == logprobs[k];
      SumExpBounds(exp, init);
    }
  }

  /** When `exp` maps every token log-probability (never positive) into
      [0, 1] and rounding keeps [0, 1], the confidence lies in [0, 1]. */
  lemma ConfidenceInUnitInterval(output: AIMessage, exp: real -> real, round2: real -> real)
    requires HasLogprobs(output)
    requires forall k :: 0 <= k < |output.logprobs.value| ==> output.logprobs.value[k] <= 0.0
    requires forall x :: x <= 0.0 ==> 0.0 <= exp(x) <= 1.0
    requires forall x :: 0.0 <= x <= 1.0 ==> 0.0 <= round2(x) <= 1.0
    ensures var v := ConfidenceAsWritten(output, exp, round2).value;
      v.fields["confidence"].JNum? && 0.0 <= v.fields["confidence"].n <= 1.0
  {
    var logprobs := output.logprobs.value;
    var n := |logprobs| as real;
    SumExpBounds(exp, logprobs);
    var total := SumExp(exp, logprobs);
    assert 0.0 <= total / n <= 1.0 by {
      assert total <= n;
      assert total / n <= n / n;
    }
  }

  /** The intended stage never raises, agrees with the written one wherever
      that one returns, and without log-probabilities reports confidence 1.0
      with the model's text. */
  lemma IntendedConfidenceAgrees(output: AIMessage, exp: real -> real, round2: real -> real)
    ensures ConfidenceAsWritten(output, exp, round2).Ok? ==>
      IntendedConfidence(output, exp, round2) == ConfidenceAsWritten(output, exp, round2)
    ensures !HasLogprobs(output) ==>
      var v := IntendedConfidence(output, exp, round2).value;
      v.fields["content"] == JStr(output.content) && v.fields["confidence"] == JNum(1.0)
  {
  }

  // ---------------------------------------------------------------------
  // The chain and process_message

  /** What `result["response"]` is: an object with a `content` attribute, or
      any other value (a dict has no such attribute). */
  datatype ChainResponse = WithContent(content: Json) | Plain(value: Json)

  /** The dict `chain.invoke` returns. */
  datatype ChainOutput = ChainOutput(response: ChainResponse, documents: seq<Document>)

  /** `chain.invoke(user_message)`: the retriever runs first; the prompt, the
      model and the confidence stage then run on the retrieved context; the
      first exception ends the chain. The stage's dict becomes the response. */
  function InvokeChain(
    retrieved: Fallible<seq<Document>>,
    generate: seq<Document> -> Fallible<AIMessage>,
    stage: AIMessage -> Fallible<Json>): Fallible<ChainOutput>
  {
    match retrieved
    case Raised(e) => Raised(e)
    case Ok(documents) =>
      match generate(documents)
      case Raised(e) => Raised(e)
      case Ok(output) =>
        match stage(output)
        case Raised(e) => Raised(e)
        case Ok(v) => Ok(ChainOutput(Plain(v), documents))
  }

  /** The dict `process_message` returns: `{"response": ..., "documents": ...}`. */
  datatype ProcessResult = ProcessResult(response: Json, documents: seq<Json>)

  const ApologyText := "Sorry, an error occurred while processing your request."

  /** `process_message` given the outcome of `chain.invoke`. */
  function ProcessMessage(result: Fallible<ChainOutput>): ProcessResult {
    match result
    case Raised(_) => ProcessResult(JStr(ApologyText), [])
    case Ok(out) =>
      var content := match out.response
        case WithContent(c) => c
        case Plain(v) => v;
      ProcessResult(content, ConvertDocumentsToDict(out.documents))
  }

  /** Any exception in the chain gives exactly the apology with no
      documents, and its response is a plain string, not the
      `{content, confidence}` dict of a success. */
  lemma ProcessMessageFallback(e: Exception)
    ensures ProcessMessage(Raised(e)) == ProcessResult(JStr(ApologyText), [])
    ensures !ProcessMessage(Raised(e)).response.JObj?
  {
  }

  /** On success the response is the `content` attribute if there is one and
      the value itself otherwise, and the documents are converted one for
      one, in order. */
  lemma ProcessMessageSuccess(out: ChainOutput)
    ensures var r := ProcessMessage(Ok(out));
      && (out.response.WithContent? ==> r.response == out.response.content)
      && (out.response.Plain? ==> r.response == out.response.value)
      && DocumentsOf(r.documents) == Some(out.documents)
  {
    ConvertDocumentsRoundTrip(out.documents);
  }

  /** Through the real chain, a successful invocation yields the stage's
      `{content, confidence}` dict and the retrieved documents. */
  lemma ChainSuccessShape(
    documents: seq<Document>, output: AIMessage,
    generate: seq<Document> -> Fallible<AIMessage>, exp: real -> real, round2: real -> real)
    requires generate(documents) == Ok(output)
    requires HasLogprobs(output)
    ensures var r := ProcessMessage(InvokeChain(Ok(documents), generate, o => ConfidenceAsWritten(o, exp, round2)));
      && r.response == ConfidenceAsWritten(output, exp, round2).value
      && r.response.JObj? && r.response.fields.Keys == {"content", "confidence"}
      && |r.documents| == |documents|
      && forall i :: 0 <= i < |documents| ==> r.documents[i] == DocumentDict(documents[i])
  {
    ConfidenceOutcome(output, exp, round2);
  }

  /** A reply without log-probabilities makes the written stage raise, so
      `process_message` returns the apology even though the model answered. */
  lemma MissingLogprobsGiveApology(
    documents: seq<Document>, output: AIMessage,
    generate: seq<Document> -> Fallible<AIMessage>, exp: real -> real, round2: real -> real)
    requires generate(documents) == Ok(output)
    requires !HasLogprobs(output)
    ensures ProcessMessage(InvokeChain(Ok(documents), generate, o => ConfidenceAsWritten(o, exp, round2)))
      == ProcessResult(JStr(ApologyText), [])
  {
  }
}
