/** The API Gateway response envelope and the document conversion
    (tc-backend-python/src/utils/response_helpers.py). The body of a response
    is the value handed to `json.dumps`; its text encoding is not modelled. */
module ResponseHelpers {
  import opened Values

  datatype Response = Response(statusCode: int, headers: map<string, string>, body: Json)

  const JsonHeaders: map<string, string> :=
    map["Content-Type" := "application/json", "Access-Control-Allow-Origin" := "*"]

  /** `create_response(status_code, data)`. */
  function CreateResponse(statusCode: int, data: Json): Response {
    Response(statusCode, JsonHeaders, data)
  }

  /** `success_response(data)`. */
  function SuccessResponse(data: Json): Response {
    CreateResponse(200, data)
  }

  /** `error_response(status_code, error_message)`. */
  function ErrorResponse(statusCode: int, message: string): Response {
    CreateResponse(statusCode, JObj(map["error" := JStr(message)]))
  }

  /** The error message a client reads back from an envelope's body, if the
      body is an error object. */
  function ErrorMessageOf(r: Response): Option<string> {
    if r.body.JObj? && r.body.fields.Keys == {"error"} && r.body.fields["error"].JStr? then
      Some(r.body.fields["error"].s)
    else None
  }

  /** Every envelope carries exactly the JSON content type and the permissive
      cross-origin header, whatever its status and payload. */
  lemma EnvelopeHeaders(statusCode: int, data: Json)
    ensures CreateResponse(statusCode, data).headers.Keys == {"Content-Type", "Access-Control-Allow-Origin"}
    ensures CreateResponse(statusCode, data).headers["Content-Type"] == "application/json"
    ensures CreateResponse(statusCode, data).headers["Access-Control-Allow-Origin"] == "*"
    ensures CreateResponse(statusCode, data).statusCode == statusCode
    ensures CreateResponse(statusCode, data).body == data
  {
  }

  /** A success envelope is status 200 around the payload, unchanged. */
  lemma SuccessKeepsPayload(data: Json)
    ensures SuccessResponse(data).statusCode == 200
    ensures SuccessResponse(data).body == data
    ensures SuccessResponse(data).headers == JsonHeaders
  {
  }

  /** An error envelope keeps its status code, and its body is the object
      `{"error": message}` from which the message reads back unchanged. */
  lemma ErrorRoundTrip(statusCode: int, message: string)
    ensures ErrorResponse(statusCode, message).statusCode == statusCode
    ensures ErrorMessageOf(ErrorResponse(statusCode, message)) == Some(message)
  {
  }

  /** Distinct messages give distinct error envelopes. */
  lemma ErrorResponseInjective(c1: int, m1: string, c2: int, m2: string)
    requires ErrorResponse(c1, m1) == ErrorResponse(c2, m2)
    ensures c1 == c2 && m1 == m2
  {
    ErrorRoundTrip(c1, m1);
    ErrorRoundTrip(c2, m2);
  }

  // ---------------------------------------------------------------------
  // convert_documents_to_dict

  /** A retrieved LangChain document. */
  datatype Document = Document(pageContent: string, metadata: map<string, Json>)

  /** The dict `convert_documents_to_dict` builds for one document. */
  function DocumentDict(d: Document): Json {
    JObj(map["page_content" := JStr(d.pageContent), "metadata" := JObj(d.metadata)])
  }

  /** `convert_documents_to_dict(documents)`. */
  function ConvertDocumentsToDict(documents: seq<Document>): (dicts: seq<Json>)
    ensures |dicts| == |documents|
    ensures forall i :: 0 <= i < |documents| ==> dicts[i] == DocumentDict(documents[i])
  {
    if documents == [] then []
    else [DocumentDict(documents[0])] + ConvertDocumentsToDict(documents[1..])
  }

  /** Reads a document back from its dict. */
  function DocumentOf(j: Json): Option<Document> {
    if j.JObj? && j.fields.Keys == {"page_content", "metadata"}
       && j.fields["page_content"].JStr? && j.fields["metadata"].JObj? then
      Some(Document(j.fields["page_content"].s, j.fields["metadata"].fields))
    else None
  }

  /** Reads every document back, in order, or fails. */
  function DocumentsOf(js: seq<Json>): Option<seq<Document>>
    decreases |js|
  {
    if js == [] then Some([])
    else match (DocumentOf(js[0]), DocumentsOf(js[1..]))
      case (Some(d), Some(ds)) => Some([d] + ds)
      case _ => None
  }

  /** Each dict holds exactly `page_content` and `metadata`, and the list of
      dicts gives back the documents in their original order. */
  lemma {:induction false} ConvertDocumentsRoundTrip(documents: seq<Document>)
    ensures DocumentsOf(ConvertDocumentsToDict(documents)) == Some(documents)
    decreases |documents|
  {
    if documents != [] {
      var d := documents[0];
      assert DocumentDict(d).fields.Keys == {"page_content", "metadata"};
      assert DocumentOf(DocumentDict(d)) == Some(d);
      ConvertDocumentsRoundTrip(documents[1..]);
      var dicts := ConvertDocumentsToDict(documents);
      assert dicts[1..] == ConvertDocumentsToDict(documents[1..]);
      assert documents == [d] + documents[1..];
    }
  }
}
