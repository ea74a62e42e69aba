/**
  The reply assembly of the agent's `/generate` endpoint (`generate_response` in
  backend/ai-agent/agent.py). The language model, the regular-expression search and
  `json.loads` are outside the model: what they produced is an input.
 */
module Generate {
  import opened Wrappers
  import opened Text
  import opened Seqs
  import Engagement
  import MockReply

  /** The fields a decoded JSON object may carry; a missing key is `None`. */
  datatype ReplyFields = ReplyFields(
    text: Option<string>, animation: Option<string>, mood: Option<string>, shouldSpeak: Option<bool>)

  /** What decoding the model's text gave. */
  datatype Decoded =
    | InvalidJson               // `json.loads` raised `JSONDecodeError`
    | JsonObject(fields: ReplyFields)
    | JsonOther                 // valid JSON that is not an object: a list, a number, a string, null

  /** What the inference step produced. */
  datatype Inference =
    | ModelNotLoaded                         // `llm` is None
    | GenerationFailed                       // the call to the model raised
    | Generated(raw: string, decoded: Decoded)  // the model's text, before `strip()`, and its decoding

  /** `MessageResponse` without `processing_time`. */
  datatype MessageResponse = MessageResponse(response: string, animation: string, mood: string, shouldSpeak: bool)

  /** The endpoint's outcome: a response, or HTTP 500 when an exception escapes. */
  datatype Outcome = Responded(value: MessageResponse) | InternalServerError

  /** The most characters of the model's text a fallback reply keeps. */
  const FallbackLength := 200

  function Fields(r: MockReply.Reply): ReplyFields {
    ReplyFields(Some(r.text), Some(r.animation), Some(r.mood), Some(r.shouldSpeak))
  }

  /** The record built when the model's text is not JSON. */
  function FallbackFields(message: string, responseText: string): (f: ReplyFields)
    ensures f.text.Some? && |f.text.value| <= FallbackLength && |f.text.value| <= |responseText|
    ensures f.text.value == responseText[..|f.text.value|]
    ensures |responseText| >= FallbackLength ==> |f.text.value| == FallbackLength
    ensures |responseText| < FallbackLength ==> f.text.value == responseText
    ensures f.animation == Some("talk") && f.mood == Some("neutral")
    ensures f.shouldSpeak == Some(Engagement.EngagementScore(message, None) >= 5)
  {
    ReplyFields(
      Some(Take(responseText, FallbackLength)), Some("talk"), Some("neutral"),
      Some(Engagement.EngagementScore(message, None) >= 5))
  }

  /** The `response_data` dictionary, or `None` when it is not a dictionary. */
  function ResponseData(message: string, inference: Inference): (d: Option<ReplyFields>)
    ensures d.None? <==> inference.Generated? && inference.decoded.JsonOther?
    ensures inference.ModelNotLoaded? || inference.GenerationFailed? ==>
      d == Some(Fields(MockReply.MockResponse(message)))
    ensures inference.Generated? && inference.decoded.InvalidJson? ==>
      d == Some(FallbackFields(message, Strip(inference.raw)))
    ensures inference.Generated? && inference.decoded.JsonObject? ==> d == Some(inference.decoded.fields)
    ensures d.Some? && !(inference.Generated? && inference.decoded.JsonObject?) ==>
      d.value.text.Some? && d.value.animation.Some? && d.value.mood.Some? && d.value.shouldSpeak.Some?
    ensures !inference.Generated? ==>
      d.Some? && d.value.shouldSpeak == Some(true) && d.value.mood.value in MockReply.MockMoods
    ensures inference.Generated? && inference.decoded.InvalidJson? ==>
      d.value.text == Some(Take(Strip(inference.raw), FallbackLength))
  {
    match inference
    case ModelNotLoaded => Some(Fields(MockReply.MockResponse(message)))
    case GenerationFailed => Some(Fields(MockReply.MockResponse(message)))
    case Generated(raw, decoded) =>
      match decoded
      case InvalidJson => Some(FallbackFields(message, Strip(raw)))
      case JsonObject(fields) => Some(fields)
      case JsonOther => None
  }

  /** The response built from the dictionary, each missing key taking its default. */
  function Finish(fields: ReplyFields): (r: MessageResponse)
    ensures fields.text.Some? ==> r.response == fields.text.value
    ensures fields.text.None? ==> r.response == ""
    ensures fields.animation.Some? ==> r.animation == fields.animation.value
    ensures fields.animation.None? ==> r.animation == "talk"
    ensures fields.mood.Some? ==> r.mood == fields.mood.value
    ensures fields.mood.None? ==> r.mood == "neutral"
    ensures r.shouldSpeak <==> fields.shouldSpeak != Some(false)
  {
    MessageResponse(
      fields.text.GetOr(""), fields.animation.GetOr("talk"),
      fields.mood.GetOr("neutral"), fields.shouldSpeak.GetOr(true))
  }

  /** The `/generate` reply for `message` given what inference produced. */
  function GenerateResponse(message: string, inference: Inference): (out: Outcome)
    ensures out.InternalServerError? <==> inference.Generated? && inference.decoded.JsonOther?
  {
    match ResponseData(message, inference)
    case None => InternalServerError
    case Some(fields) => Responded(Finish(fields))
  }

  /** Without a model, or when it fails, the reply is the canned one, and it is spoken. */
  lemma MockWithoutModel(message: string, inference: Inference)
    requires inference.ModelNotLoaded? || inference.GenerationFailed?
    ensures GenerateResponse(message, inference).Responded?
    ensures var r := GenerateResponse(message, inference).value;
      var m := MockReply.MockResponse(message);
      r.response == m.text && r.animation == m.animation && r.mood == m.mood && r.shouldSpeak
  {
  }

  /** Text that is not JSON is answered with the first 200 characters of the stripped text,
      the "talk" animation, the "neutral" mood, and speech exactly when the score is at least 5. */
  lemma FallbackOnInvalidJson(message: string, raw: string)
    ensures var out := GenerateResponse(message, Generated(raw, InvalidJson));
      && out.Responded?
      && out.value.response == Take(Strip(raw), FallbackLength)
      && |out.value.response| <= FallbackLength
      && out.value.animation == "talk" && out.value.mood == "neutral"
      && (out.value.shouldSpeak <==> Engagement.EngagementScore(message, None) >= 5)
  {
  }

  /** A decoded object keeps the fields it has and gets "", "talk", "neutral" and true for the rest. */
  lemma DefaultsForMissingFields(message: string, raw: string, fields: ReplyFields)
    ensures var out := GenerateResponse(message, Generated(raw, JsonObject(fields)));
      && out.Responded?
      && out.value.response == (if fields.text.Some? then fields.text.value else "")
      && out.value.animation == (if fields.animation.Some? then fields.animation.value else "talk")
      && out.value.mood == (if fields.mood.Some? then fields.mood.value else "neutral")
      && out.value.shouldSpeak == (fields.shouldSpeak.None? || fields.shouldSpeak.value)
  {
  }

  /** A fallback for a message of fewer than three words, without "lain", '?' or shouting,
      is spoken only when at least four keywords occur in it. */
  lemma ShortFallbackNeedsFourKeywords(message: string, raw: string)
    requires WordCount(message) < 3 && !Engagement.IsShouting(message)
    requires !Contains(Lower(message), "lain") && '?' !in message
    ensures GenerateResponse(message, Generated(raw, InvalidJson)).value.shouldSpeak ==
      (Engagement.KeywordScore(Lower(message)) >= 8)
  {
  }
}
