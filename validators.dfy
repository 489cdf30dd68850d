/** The request validators and the decision rules of the two content
    classifiers (tc-backend-python/src/utils/validators.py). The spaCy parse
    and the OpenAI moderation call are foreign: their outcomes are inputs. */
module Validators {
  import opened Values
  import opened Text

  const MaxMessageLength := 500
  const MinMessageLength := 10
  const BlockedWords: set<string> := {"hack", "attack", "drop table", "<script>"}
  const InvalidCharacters: set<char> := {'<', '>', '$', '%', '{', '}', '[', ']', '#', '^', '|', '~'}

  const InvalidFormatError := "Invalid request format"
  const MissingMessageError := "Missing 'message' in request body"
  const NotAStringError := "Message must be a string"
  const EmptyError := "Message cannot be empty"
  const TooShortError := "Message is too short (minimum 10 characters required)"
  const TooLongError := "Message is too long (maximum 500 characters allowed)"
  const InvalidCharactersError := "Message contains invalid characters"
  const ProhibitedContentError := "Message contains prohibited content"

  /** The `(is_valid, message, error)` triple: `(True, m, None)` or
      `(False, None, error)`. */
  datatype Validation = Accepted(message: string) | Rejected(error: string)

  predicate HasInvalidCharacter(m: string) {
    exists i | 0 <= i < |m| :: m[i] in InvalidCharacters
  }

  predicate HasBlockedWord(m: string) {
    exists w | w in BlockedWords :: IsSubstring(w, Lower(m))
  }

  /** `validate_user_message(body)`. */
  function ValidateUserMessage(body: Json): Validation {
    if !body.JObj? then Rejected(InvalidFormatError)
    else if "message" !in body.fields then Rejected(MissingMessageError)
    else if !body.fields["message"].JStr? then Rejected(NotAStringError)
    else ValidateText(body.fields["message"].s)
  }

  /** The checks `validate_user_message` applies to a string message. */
  function ValidateText(raw: string): Validation {
    var stripped := Strip(raw);
    if stripped == [] then Rejected(EmptyError)
    else if |stripped| < MinMessageLength then Rejected(TooShortError)
    else if |stripped| > MaxMessageLength then Rejected(TooLongError)
    else
      var message := Collapse(stripped);
      if HasInvalidCharacter(message) then Rejected(InvalidCharactersError)
      else if HasBlockedWord(message) then Rejected(ProhibitedContentError)
      else Accepted(message)
  }

  // ---------------------------------------------------------------------
  // Properties of validate_user_message

  /** The structural checks come first, in order: not a dict, no `message`
      key, a message that is not a string. */
  lemma StructuralChecks(body: Json)
    ensures !body.JObj? ==> ValidateUserMessage(body) == Rejected(InvalidFormatError)
    ensures body.JObj? && "message" !in body.fields ==>
      ValidateUserMessage(body) == Rejected(MissingMessageError)
    ensures body.JObj? && "message" in body.fields && !body.fields["message"].JStr? ==>
      ValidateUserMessage(body) == Rejected(NotAStringError)
    ensures ValidateUserMessage(body).Accepted? ==>
      body.JObj? && "message" in body.fields && body.fields["message"].JStr?
  {
  }

  lemma CollapseKeepsCharacter(s: string, c: char)
    requires !IsSpace(c)
    ensures c in Collapse(s) <==> c in s
  {
    CollapseKeepsText(s);
    InNonSpace(c, s);
    InNonSpace(c, Collapse(s));
  }

  /** An invalid character may be looked for before or after the collapse:
      none of them is whitespace. */
  lemma InvalidCharacterSurvivesCollapse(s: string)
    ensures HasInvalidCharacter(Collapse(s)) <==> HasInvalidCharacter(s)
  {
    forall c | c in InvalidCharacters
      ensures c in Collapse(s) <==> c in s
    {
      CollapseKeepsCharacter(s, c);
    }
    if HasInvalidCharacter(s) {
      var i :| 0 <= i < |s| && s[i] in InvalidCharacters;
      assert s[i] in Collapse(s);
    }
    if HasInvalidCharacter(Collapse(s)) {
      var i :| 0 <= i < |Collapse(s)| && Collapse(s)[i] in InvalidCharacters;
      assert Collapse(s)[i] in s;
    }
  }

  /** After the structural checks, the rejection reason is decided by the
      stripped text alone, each check short-circuiting in a fixed order:
      empty, shorter than 10, longer than 500, an invalid character, a
      blocked phrase. */
  lemma RejectionOrder(raw: string)
    ensures var v, t := ValidateText(raw), Strip(raw);
      && (v == Rejected(EmptyError) <==> t == [])
      && (v == Rejected(TooShortError) <==> 0 < |t| < MinMessageLength)
      && (v == Rejected(TooLongError) <==> |t| > MaxMessageLength)
      && (v == Rejected(InvalidCharactersError) <==>
            MinMessageLength <= |t| <= MaxMessageLength && HasInvalidCharacter(t))
      && (v == Rejected(ProhibitedContentError) <==>
            MinMessageLength <= |t| <= MaxMessageLength && !HasInvalidCharacter(t)
            && HasBlockedWord(Collapse(t)))
  {
    InvalidCharacterSurvivesCollapse(Strip(raw));
  }

  /** What an accepted message looks like: the input's words joined by
      single spaces (so normalized whitespace and the input's text), at most
      500 characters, no invalid character, no blocked phrase. */
  lemma AcceptedMessageIsClean(raw: string)
    requires ValidateText(raw).Accepted?
    ensures var m := ValidateText(raw).message;
      && Normalized(m)
      && 0 < |m| <= MaxMessageLength
      && NonSpace(m) == NonSpace(raw)
      && (forall i :: 0 <= i < |m| ==> m[i] !in InvalidCharacters)
      && (forall w :: w in BlockedWords ==> !IsSubstring(w, Lower(m)))
      && m == Join(" ", Words(raw))
  {
    var t := Strip(raw);
    StripCollapseNormalized(raw);
    CollapseNoLonger(t);
    CollapseEnds(t);
  }

  /** Two characters around a run of whitespace are already stripped. */
  lemma StripAroundGap(a: char, gap: string, b: char)
    requires !IsSpace(a) && !IsSpace(b)
    ensures Strip([a] + gap + [b]) == [a] + gap + [b]
  {
    var s := [a] + gap + [b];
    assert TrimStart(s) == s;
    assert s[|s| - 1] == b;
    assert TrimEnd(s) == s;
  }

  /** Two characters around a run of whitespace collapse to the two
      characters around a single space. */
  lemma CollapseAroundGap(a: char, gap: string, b: char)
    requires !IsSpace(a) && !IsSpace(b)
    requires gap != [] && AllSpace(gap)
    ensures Collapse([a] + gap + [b]) == [a, ' ', b]
  {
    var s := [a] + gap + [b];
    assert s[1..] == gap + [b];
    TrimStartSkips(gap, [b]);
    assert Collapse([b]) == [b] by {
      assert [b][1..] == [];
    }
  }

  /** The length bounds apply before the collapse, so an accepted message may
      be shorter than the minimum: `"a"`, nine spaces and `"b"` is accepted as
      `"a b"`. */
  lemma ShortAcceptedMessage()
    ensures ValidateText("a         b") == Accepted("a b")
  {
    ShortAcceptedAround('a', "         ", 'b');
    assert "a         b" == ['a'] + "         " + ['b'];
  }

  lemma ShortAcceptedAround(a: char, gap: string, b: char)
    requires a !in InvalidCharacters && b !in InvalidCharacters
    requires !IsSpace(a) && !IsSpace(b)
    requires |gap| == 9 && AllSpace(gap)
    ensures ValidateText([a] + gap + [b]) == Accepted([a, ' ', b])
  {
    StripAroundGap(a, gap, b);
    CollapseAroundGap(a, gap, b);
    SpacedPairIsClean(a, b);
    AcceptedWhenClean([a] + gap + [b], [a, ' ', b]);
  }

  lemma SpacedPairIsClean(a: char, b: char)
    requires a !in InvalidCharacters && b !in InvalidCharacters
    ensures !HasInvalidCharacter([a, ' ', b]) && !HasBlockedWord([a, ' ', b])
  {
    var m := [a, ' ', b];
    assert ' ' !in InvalidCharacters;
    assert forall i | 0 <= i < 3 :: m[i] == a || m[i] == ' ' || m[i] == b;
    NoBlockedWordInShortText(m);
  }

  lemma AcceptedWhenClean(raw: string, m: string)
    requires Strip(raw) == raw && MinMessageLength <= |raw| <= MaxMessageLength
    requires Collapse(raw) == m && !HasInvalidCharacter(m) && !HasBlockedWord(m)
    ensures ValidateText(raw) == Accepted(m)
  {
  }

  lemma NoBlockedWordInShortText(m: string)
    requires |m| < 4
    ensures !HasBlockedWord(m)
  {
  }

  /** A message with `<` is rejected for its characters before the blocked
      words are looked at, so the `"<script>"` entry never decides a
      rejection. */
  lemma ScriptIsNeverTheReason(raw: string)
    requires '<' in raw
    ensures ValidateText(raw) != Rejected(ProhibitedContentError)
    ensures ValidateText(raw).Accepted? == false
    ensures MinMessageLength <= |Strip(raw)| <= MaxMessageLength ==>
      ValidateText(raw) == Rejected(InvalidCharactersError)
  {
    var i, j := StripShape(raw);
    var k :| 0 <= k < |raw| && raw[k] == '<';
    assert i <= k < j;
    assert Strip(raw)[k - i] == '<';
    InvalidCharacterSurvivesCollapse(Strip(raw));
  }

  /** `"hola"` is too short. */
  lemma HolaIsTooShort()
    ensures ValidateUserMessage(JObj(map["message" := JStr("hola")])) == Rejected(TooShortError)
  {
    var raw := "hola";
    assert !IsSpace(raw[0]) && !IsSpace(raw[3]);
    assert TrimStart(raw) == raw;
    assert TrimEnd(raw) == raw;
    assert ValidateText(raw) == Rejected(TooShortError);
  }

  // ---------------------------------------------------------------------
  // detect_harmful_content

  /** What the moderation endpoint reports: the `flagged` flag and the
      `categories` dump as (name, flagged) pairs in the order it lists them. */
  datatype Moderation = Moderation(flagged: bool, categories: seq<(string, bool)>)

  const HarmfulPrefix := "Message contains harmful content: "
  const ModerationErrorPrefix := "Error checking content moderation: "

  /** The names of the flagged categories, in the order they are listed. */
  function FlaggedCategories(categories: seq<(string, bool)>): (names: seq<string>)
    ensures |names| <= |categories|
    decreases |categories|
  {
    if categories == [] then []
    else if categories[0].1 then [categories[0].0] + FlaggedCategories(categories[1..])
    else FlaggedCategories(categories[1..])
  }

  /** `detect_harmful_content` given the outcome of the moderation call. */
  function DetectHarmfulContent(outcome: Fallible<Moderation>): (r: (bool, string)) {
    match outcome
    case Raised(e) => (false, ModerationErrorPrefix + e.message)
    case Ok(result) =>
      if result.flagged then (true, HarmfulPrefix + Join(", ", FlaggedCategories(result.categories)))
      else (false, "")
  }

  /** A category name is among the flagged names exactly when some entry
      lists it as flagged. */
  lemma {:induction false} FlaggedCategoriesExact(categories: seq<(string, bool)>, name: string)
    ensures name in FlaggedCategories(categories) <==> (name, true) in categories
    decreases |categories|
  {
    if categories != [] {
      FlaggedCategoriesExact(categories[1..], name);
      assert categories == [categories[0]] + categories[1..];
    }
  }

  /** The harmful flag is the moderation's own flag, and a flagged result's
      reason names every flagged category; a clean result gives no reason. */
  lemma HarmfulReasonNamesCategories(result: Moderation)
    ensures DetectHarmfulContent(Ok(result)).0 == result.flagged
    ensures !result.flagged ==> DetectHarmfulContent(Ok(result)).1 == ""
    ensures result.flagged ==> forall name :: (name, true) in result.categories ==>
      IsSubstring(name, DetectHarmfulContent(Ok(result)).1)
  {
    if result.flagged {
      var names := FlaggedCategories(result.categories);
      forall name | (name, true) in result.categories
        ensures IsSubstring(name, DetectHarmfulContent(Ok(result)).1)
      {
        FlaggedCategoriesExact(result.categories, name);
        var k :| 0 <= k < |names| && names[k] == name;
        JoinContainsParts(", ", names, k);
        SubstringOfSuffix(name, HarmfulPrefix, Join(", ", names));
      }
    }
  }

  /** A failed moderation call does not flag the message: the error only
      shows in a non-empty reason. */
  lemma ModerationFailsOpen(e: Exception)
    ensures !DetectHarmfulContent(Raised(e)).0
    ensures DetectHarmfulContent(Raised(e)).1 != ""
    ensures DetectHarmfulContent(Raised(e)).1[..|ModerationErrorPrefix|] == ModerationErrorPrefix
  {
  }

  // ---------------------------------------------------------------------
  // is_poorly_formed_question

  /** One token of the parse: its part of speech and dependency label. */
  datatype Token = Token(pos: string, dep: string)

  /** The parse of the question: its tokens and the part of speech of each
      noun chunk's root. */
  datatype Analysis = Analysis(tokens: seq<Token>, chunkRoots: seq<string>)

  predicate HasExplicitSubject(a: Analysis) {
    exists t | t in a.tokens :: t.dep in {"nsubj", "nsubj:pass"}
  }

  predicate HasVerb(a: Analysis) {
    exists t | t in a.tokens :: t.pos in {"VERB", "AUX"}
  }

  predicate HasNounPhrase(a: Analysis) {
    "NOUN" in a.chunkRoots
  }

  predicate HasImplicitSubject(a: Analysis) {
    || (exists t | t in a.tokens :: t.pos in {"PRON", "ADV"})
    || (exists t | t in a.tokens :: t.dep in {"mark", "advmod"})
    || (exists t | t in a.tokens :: t.dep in {"dobj", "iobj"})
    || (exists t | t in a.tokens :: t.dep == "prep")
  }

  /** `is_poorly_formed_question` given the outcome of the parse. */
  predicate IsPoorlyFormedQuestion(analysis: Fallible<Analysis>) {
    match analysis
    case Raised(_) => true
    case Ok(a) =>
      !(HasVerb(a) && (HasExplicitSubject(a) || HasImplicitSubject(a)) && HasNounPhrase(a))
  }

  /** The verdict depends only on which tags occur: a parse with at least the
      tags of a well-formed one is well formed too. So the order of tokens and
      chunks never matters, and a failed parse counts as poorly formed. */
  lemma WellFormedIsMonotone(a: Analysis, b: Analysis)
    requires forall t :: t in a.tokens ==> t in b.tokens
    requires forall p :: p in a.chunkRoots ==> p in b.chunkRoots
    requires !IsPoorlyFormedQuestion(Ok(a))
    ensures !IsPoorlyFormedQuestion(Ok(b))
  {
  }

  /** A question is poorly formed exactly when the parse fails, or it has no
      verb, or no noun chunk headed by a noun, or neither an explicit nor an
      implicit subject. */
  lemma PoorlyFormedCases(analysis: Fallible<Analysis>)
    ensures IsPoorlyFormedQuestion(analysis) <==>
      || analysis.Raised?
      || !HasVerb(analysis.value)
      || !HasNounPhrase(analysis.value)
      || (!HasExplicitSubject(analysis.value) && !HasImplicitSubject(analysis.value))
  {
  }

  /** A verb with a nominal subject and a noun chunk make a well-formed
      question. */
  lemma SubjectVerbNounIsWellFormed(a: Analysis, subject: Token, verb: Token)
    requires subject in a.tokens && subject.dep == "nsubj"
    requires verb in a.tokens && verb.pos == "VERB"
    requires "NOUN" in a.chunkRoots
    ensures !IsPoorlyFormedQuestion(Ok(a))
  {
  }

  // ---------------------------------------------------------------------
  // parse_request_body and validate_request_metrics_data

  /** What `json.loads` does with a string: a value, or JSONDecodeError. */
  datatype Loaded = Parsed(value: Json) | DecodeError

  /** `parse_request_body(event)`: `json.loads(event.get("body", "{}"))`,
      with a decode error turned into `{}`. A body that is not a string makes
      `json.loads` raise TypeError, which is not caught here. */
  function ParseRequestBody(event: map<string, Json>, loads: string -> Loaded): (r: Fallible<Json>)
    ensures r.Raised? <==> "body" in event && !event["body"].JStr?
    ensures r.Raised? ==> r.error.kind == TypeError
  {
    var raw := if "body" in event then event["body"] else JStr("{}");
    match raw
    case JStr(text) =>
      (match loads(text)
       case Parsed(v) => Ok(v)
       case DecodeError => Ok(JObj(map[])))
    case _ =>
      Raised(Exception(TypeError, "the JSON object must be str, bytes or bytearray, not " + TypeName(raw)))
  }

  /** A text body that does not decode, and a missing body, both read as
      `{}`. */
  lemma UndecodableBodyIsEmpty(event: map<string, Json>, loads: string -> Loaded)
    requires loads("{}") == Parsed(JObj(map[]))
    requires "body" !in event || (event["body"].JStr? && loads(event["body"].s) == DecodeError)
    ensures ParseRequestBody(event, loads) == Ok(JObj(map[]))
    ensures ValidateUserMessage(ParseRequestBody(event, loads).value) == Rejected(MissingMessageError)
  {
  }

  const RequiredMetricsFields: seq<string> := ["question", "ground_truth", "answer", "contexts"]
  const MissingFieldsError := "Missing required fields"

  /** `body.get(key)` is truthy. */
  predicate Present(fields: map<string, Json>, key: string) {
    key in fields && Truthy(fields[key])
  }

  /** `validate_request_metrics_data(body)`; a body that is not a dict has no
      `get` and raises AttributeError. */
  function ValidateRequestMetricsData(body: Json): (r: Fallible<(bool, string)>) {
    if !body.JObj? then
      Raised(Exception(AttributeError, "'" + TypeName(body) + "' object has no attribute 'get'"))
    else if !Present(body.fields, "question") || !Present(body.fields, "ground_truth")
         || !Present(body.fields, "answer") || !Present(body.fields, "contexts") then
      Ok((false, MissingFieldsError))
    else Ok((true, ""))
  }

  /** A dict body passes exactly when every required field is present and
      truthy, and otherwise fails with the one fixed message. */
  lemma MetricsCheckIff(body: Json)
    ensures ValidateRequestMetricsData(body) == Ok((true, "")) <==>
      body.JObj? && forall k :: k in RequiredMetricsFields ==> Present(body.fields, k)
    ensures ValidateRequestMetricsData(body) == Ok((false, MissingFieldsError)) <==>
      body.JObj? && exists k :: k in RequiredMetricsFields && !Present(body.fields, k)
    ensures ValidateRequestMetricsData(body).Raised? <==> !body.JObj?
  {
    if body.JObj? && !Present(body.fields, "contexts") {
      assert RequiredMetricsFields[3] == "contexts";
    }
    if body.JObj? && !Present(body.fields, "answer") {
      assert RequiredMetricsFields[2] == "answer";
    }
    if body.JObj? && !Present(body.fields, "ground_truth") {
      assert RequiredMetricsFields[1] == "ground_truth";
    }
    if body.JObj? && !Present(body.fields, "question") {
      assert RequiredMetricsFields[0] == "question";
    }
  }
}
