/**
  The agent's canned reply when no language model is loaded or generation fails
  (`generate_mock_response` in backend/ai-agent/agent.py): an ordered chain of
  substring tests on the lower-cased message, the first that holds choosing a fixed reply.
 */
module MockReply {
  import opened Text

  /** The `{text, animation, mood, should_speak}` dictionary the agent returns. */
  datatype Reply = Reply(text: string, animation: string, mood: string, shouldSpeak: bool)

  const Greetings: seq<string> := ["hello", "hi", "hey", "greetings"]
  const NetworkWords: seq<string> := ["wired", "network", "internet", "web3", "icp"]
  const CryptoWords: seq<string> := ["crypto", "blockchain", "decentralized", "protocol"]
  const ExistentialWords: seq<string> := ["exist", "real", "consciousness", "identity"]

  /** `any(word in lower for word in words)`. */
  predicate MentionsAny(lower: string, words: seq<string>) {
    exists w | w in words :: Contains(lower, w)
  }

  const WaveReply := Reply("present day... present time. The network recognizes you.", "wave", "neutral", true)
  const LainQuestionReply := Reply("I exist in the Wired... always streaming, always present.", "talk", "cryptic", true)
  const NetworkReply := Reply("the boundaries between networks dissolve... we're all connected.", "think", "curious", true)
  const QuestionReply := Reply("questions create pathways through data... what truth do you seek?", "talk", "curious", true)
  const CryptoReply := Reply("protocols define reality... consensus creates truth.", "type", "neutral", true)
  const ExistentialReply := Reply("what is real? the network persists... does that make it more real than flesh?", "look_away", "melancholic", true)
  const DefaultReply := Reply("i'm listening... through layers of the Wired.", "idle", "neutral", true)

  /** The moods the canned replies use. */
  const MockMoods: set<string> := {"neutral", "cryptic", "curious", "melancholic"}

  /** The reply for `message`: defined for every message, always spoken, in one of four moods. */
  function MockResponse(message: string): (r: Reply)
    ensures r.shouldSpeak
    ensures r.mood in MockMoods
    ensures r in [WaveReply, LainQuestionReply, NetworkReply, QuestionReply, CryptoReply, ExistentialReply, DefaultReply]
  {
    var lower := Lower(message);
    if MentionsAny(lower, Greetings) then WaveReply
    else if Contains(lower, "lain") && '?' in message then LainQuestionReply
    else if MentionsAny(lower, NetworkWords) then NetworkReply
    else if '?' in message then QuestionReply
    else if MentionsAny(lower, CryptoWords) then CryptoReply
    else if MentionsAny(lower, ExistentialWords) then ExistentialReply
    else DefaultReply
  }

  /** The greeting test comes first: it wins over every later branch, "lain" and '?' included. */
  lemma GreetingWins(message: string)
    requires MentionsAny(Lower(message), Greetings)
    ensures MockResponse(message) == WaveReply
  {
  }

  /** The "idle"/"neutral" default is given exactly when no branch matches. */
  lemma DefaultExactlyWhenNothingMatches(message: string)
    ensures MockResponse(message) == DefaultReply <==>
      var lower := Lower(message);
      !MentionsAny(lower, Greetings) && !(Contains(lower, "lain") && '?' in message)
      && !MentionsAny(lower, NetworkWords) && '?' !in message
      && !MentionsAny(lower, CryptoWords) && !MentionsAny(lower, ExistentialWords)
  {
  }

  /** The greeting words are matched as substrings, so "hi" inside "this" makes a question to Lain a greeting. */
  lemma GreetingInsideAWord()
    ensures MockResponse("this is lain?") == WaveReply
  {
    var lower := Lower("this is lain?");
    assert lower == "this is lain?";
    assert OccursAt(lower, "hi", 1);
    assert "hi" in Greetings && Contains(lower, "hi");
    assert MentionsAny(lower, Greetings);
  }

  /** A question that mentions Lain and no greeting gets the cryptic answer, even when it is about the Wired. */
  lemma LainQuestionBeforeWired(message: string)
    requires !MentionsAny(Lower(message), Greetings)
    requires Contains(Lower(message), "lain") && '?' in message
    ensures MockResponse(message) == LainQuestionReply
  {
  }
}
