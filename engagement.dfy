/**
  The agent's engagement score (`calculate_engagement_score` in backend/ai-agent/agent.py):
  an integer built from the word count, a question mark, a mention of Lain, keyword hits
  and a user-history bonus, minus penalties for shouting and for very short messages,
  and never below zero.
 */
module Engagement {
  import opened Wrappers
  import opened Text

  /** The substrings that each earn 2 points when they occur in the lower-cased message. */
  const LainKeywords: seq<string> := [
    "wired", "network", "protocol", "consciousness", "identity",
    "exist", "real", "data", "connection", "alone", "crypto",
    "decentralized", "ai", "machine", "system", "blockchain",
    "icp", "internet computer", "web3"
  ]

  /** The optional `user_history` dictionary; Python treats `None` and `{}` alike, as false. */
  type History = Option<map<string, int>>

  predicate Distinct(words: seq<string>) {
    forall i, j | 0 <= i < j < |words| :: words[i] != words[j]
  }

  lemma LainKeywordsDistinct()
    ensures Distinct(LainKeywords)
  {
  }

  /** The keywords of `words` that occur in `lower`. */
  function MatchingKeywords(words: seq<string>, lower: string): set<string> {
    set k | k in words && Contains(lower, k)
  }

  /** `sum(2 for kw in words if kw in lower)`. */
  function KeywordBonus(words: seq<string>, lower: string): (b: nat)
    ensures b <= 2 * |words|
    decreases |words|
  {
    if |words| == 0 then 0
    else KeywordBonus(words[..|words| - 1], lower) + (if Contains(lower, words[|words| - 1]) then 2 else 0)
  }

  /** Over distinct keywords the sum is twice the number of keywords that occur. */
  lemma {:induction false} KeywordBonusCountsMatches(words: seq<string>, lower: string)
    requires Distinct(words)
    ensures KeywordBonus(words, lower) == 2 * |MatchingKeywords(words, lower)|
    decreases |words|
  {
    if |words| > 0 {
      var init, last := words[..|words| - 1], words[|words| - 1];
      KeywordBonusCountsMatches(init, lower);
      forall i | 0 <= i < |init| ensures init[i] != last {
        assert init[i] == words[i];
      }
      assert words == init + [last];
      var before := MatchingKeywords(init, lower);
      if Contains(lower, last) {
        assert MatchingKeywords(words, lower) == before + {last};
        assert last !in before;
      } else {
        assert MatchingKeywords(words, lower) == before;
      }
    }
  }

  /** The keyword part of the score: 2 for each distinct keyword that occurs. */
  function KeywordScore(lower: string): (b: nat)
    ensures b == 2 * |MatchingKeywords(LainKeywords, lower)|
    ensures b <= 2 * |LainKeywords|
  {
    LainKeywordsDistinct();
    KeywordBonusCountsMatches(LainKeywords, lower);
    KeywordBonus(LainKeywords, lower)
  }

  /** A message that contains "@lain" contains "lain", so the first test of the mention rule adds nothing. */
  lemma MentionCollapses(lower: string)
    ensures (Contains(lower, "@lain") || Contains(lower, "lain")) == Contains(lower, "lain")
  {
    if Contains(lower, "@lain") {
      assert OccursAt("@lain", "lain", 1);
      ContainsTransitive(lower, "@lain", "lain");
    }
  }

  /** The mention part: `'@lain' in lower or 'lain' in lower` is worth 5, which is just "lain" occurring. */
  function MentionBonus(lower: string): (b: nat)
    ensures b == (if Contains(lower, "lain") then 5 else 0)
  {
    MentionCollapses(lower);
    if Contains(lower, "@lain") || Contains(lower, "lain") then 5 else 0
  }

  function HistoryCounter(history: map<string, int>, key: string): int {
    if key in history then history[key] else 0
  }

  /** 3 points for a user with fewer than 5 messages, 2 for a last interaction above 86400;
      nothing without a (non-empty) history. */
  function HistoryBonus(history: History): (b: nat)
    ensures b <= 5 && b != 1 && b != 4
    ensures history.None? || history == Some(map[]) ==> b == 0
    ensures b >= 3 <==> history.Some? && |history.value| > 0 && HistoryCounter(history.value, "message_count") < 5
    ensures (b == 2 || b == 5) <==>
      history.Some? && |history.value| > 0 && HistoryCounter(history.value, "last_interaction") > 86400
  {
    match history
    case None => 0
    case Some(h) =>
      if |h| == 0 then 0
      else
        (if HistoryCounter(h, "message_count") < 5 then 3 else 0)
        + (if HistoryCounter(h, "last_interaction") > 86400 then 2 else 0)
  }

  /** Shouting: an all-upper-case message longer than 10 characters. */
  predicate IsShouting(message: string) {
    IsUpper(message) && |message| > 10
  }

  /** The score before the floor at zero. */
  function RawScore(message: string, history: History): int {
    var lower := Lower(message);
    var words := WordCount(message);
    (if words > 10 then 2 else 0)
    + (if '?' in message then 1 else 0)
    + MentionBonus(lower)
    + KeywordScore(lower)
    + HistoryBonus(history)
    - (if IsShouting(message) then 5 else 0)
    - (if words < 3 then 3 else 0)
  }

  /** The raw score rule by rule: more than 10 words adds 2, a '?' adds 1, "lain" anywhere (in any
      case) adds 5, each distinct keyword that occurs adds 2, the history adds its bonus, shouting
      takes 5 and fewer than 3 words take 3. */
  lemma ScoreRules(message: string, history: History)
    ensures var lower := Lower(message);
      RawScore(message, history) ==
        (if WordCount(message) > 10 then 2 else 0)
        + (if '?' in message then 1 else 0)
        + (if Contains(lower, "lain") then 5 else 0)
        + 2 * |MatchingKeywords(LainKeywords, lower)|
        + HistoryBonus(history)
        - (if IsShouting(message) then 5 else 0)
        - (if WordCount(message) < 3 then 3 else 0)
  {
  }

  /** `max(0, score)`: never negative, and equal to the raw score whenever that is not. */
  function EngagementScore(message: string, history: History): (score: nat)
    ensures score >= RawScore(message, history)
    ensures score == RawScore(message, history) || score == 0
  {
    var raw := RawScore(message, history);
    if raw < 0 then 0 else raw
  }

  /** The score lies between 0 and 2 + 1 + 5 + 2 * 19 + 3 + 2 = 51. */
  lemma ScoreBounds(message: string, history: History)
    ensures 0 <= EngagementScore(message, history) <= 51
  {
  }

  /** Every mention of "lain" also counts the keyword "ai" (l-ai-n), so it is worth 7 points. */
  lemma MentionAlsoMatchesAi(lower: string)
    requires Contains(lower, "lain")
    ensures "ai" in MatchingKeywords(LainKeywords, lower)
    ensures MentionBonus(lower) + KeywordScore(lower) >= 7
  {
    assert OccursAt("lain", "ai", 1);
    ContainsTransitive(lower, "lain", "ai");
    assert LainKeywords[12] == "ai";
    assert "ai" in MatchingKeywords(LainKeywords, lower);
  }

  /** A message of three or more words that mentions Lain and does not shout scores at least 7,
      whatever the history, so the fallback reply speaks it. */
  lemma MentionSpeaks(message: string, history: History)
    requires Contains(Lower(message), "lain")
    requires WordCount(message) >= 3 && !IsShouting(message)
    ensures EngagementScore(message, history) >= 7
  {
    MentionAlsoMatchesAi(Lower(message));
  }

  /** `sum(2 for kw in lain_keywords if kw in lower)`, one keyword at a time. */
  method KeywordPoints(lower: string) returns (points: int)
    ensures points == KeywordScore(lower)
  {
    points := 0;
    for i := 0 to |LainKeywords|
      invariant points == KeywordBonus(LainKeywords[..i], lower)
    {
      assert LainKeywords[..i + 1][..i] == LainKeywords[..i];
      if Contains(lower, LainKeywords[i]) {
        points := points + 2;
      }
    }
    assert LainKeywords[..|LainKeywords|] == LainKeywords;
  }

  /** The score computed the way `calculate_engagement_score` does: a running total, one rule at a time. */
  method CalculateEngagementScore(message: string, history: History) returns (score: int)
    ensures score == EngagementScore(message, history)
  {
    score := 0;
    var lower := Lower(message);
    var words := WordCount(message);
    if words > 10 {
      score := score + 2;
    }
    if '?' in message {
      score := score + 1;
    }
    if Contains(lower, "@lain") || Contains(lower, "lain") {
      score := score + 5;
    }
    assert score == (if words > 10 then 2 else 0) + (if '?' in message then 1 else 0) + MentionBonus(lower);
    var points := KeywordPoints(lower);
    score := score + points;
    if history.Some? && |history.value| > 0 {
      if HistoryCounter(history.value, "message_count") < 5 {
        score := score + 3;
      }
      if HistoryCounter(history.value, "last_interaction") > 86400 {
        score := score + 2;
      }
    }
    assert score == (if words > 10 then 2 else 0) + (if '?' in message then 1 else 0)
      + MentionBonus(lower) + KeywordScore(lower) + HistoryBonus(history);
    if IsUpper(message) && |message| > 10 {
      score := score - 5;
    }
    if words < 3 {
      score := score - 3;
    }
    assert score == RawScore(message, history);
    if score < 0 {
      score := 0;
    }
  }
}
