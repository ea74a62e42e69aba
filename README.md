# LainTV core, modelled in Dafny

LainTV is a streaming site whose presenter is an AI character, Lain. This project models the
decision-making core of three of its services and proves properties about it.

- **The AI agent**, `backend/ai-agent/agent.py`, covers four pieces:
  - The **engagement score**, which decides whether a message deserves a spoken reply.
  - The **canned reply** used when no language model is loaded or generation fails.
  - The **filters** applied to the results of the memory and knowledge vector searches.
  - How `/generate` **assembles its reply**: the fallback for model text that is not JSON, the defaults for missing fields, and the HTTP 500 outcome.
- **The video catalogue canister**, `src/lain-tv-backend/src/lib.rs`, runs on the Internet Computer.
  - It keeps a key-ordered map of videos, with upsert, admin-only removal, listing by key order, and case-insensitive channel filtering.
  - It holds the polling state: the poll configuration, the time of the last poll, and the handle of the poll timer.
  - On HTTP status 200, a poll stores the three sample videos.
  - An enabled configuration schedules a **one-shot** timer (`set_timer`). So it polls once. Its callback records the poll time whether or not the fetch succeeded.
- **The animation server**, `backend/animation/animation_server.py`, holds the table of animations per mood and state. It normalises a request's mood and state, picks one of the listed animations, and lists moods and states.

Modules:

| module | file | contents |
|---|---|---|
| `Wrappers` | `wrappers.dfy` | `Option` |
| `Text` | `text.dfy` | The string primitives. Listed in detail below. |
| `Seqs` | `seqs.dfy` | Order-preserving filter, prefix, subsequence |
| `LexOrder` | `lex_order.dfy` | Rust `String` order and the sorted key list a `BTreeMap` iterates in |
| `Engagement` | `engagement.dfy` | `calculate_engagement_score` |
| `MockReply` | `mock_reply.dfy` | `generate_mock_response` |
| `Recall` | `recall.dfy` | The filter loops of `recall_context` and `recall_knowledge` |
| `Generate` | `generate.dfy` | The reply assembly of `generate_response` |
| `LainTvBackend` | `canister.dfy` | The canister. Its state is the class `Canister`. |
| `Animation` | `animation.dfy` | `ANIMATIONS`, `get_animation`, `get_moods` |

`Text` holds the string primitives the sources use:
- ASCII case mapping;
- substring tests;
- Python's whitespace set, `len(s.split())`, `isupper()` and `strip()`;
- decimal rendering of a number.

External services become parameters of the model:

| service | modelled as |
|---|---|
| The Internet Computer clock | A `u64` nanosecond reading |
| The caller's principal | Its text |
| The HTTP outcall | Its outcome, a status or a failure |
| The timer service | The map of waiting one-shot timers plus the next handle it will give out |
| Each vector search | Its list of hits, or `None` when the store or the encoder is unavailable or the search raised |
| The language model and `json.loads` | What they produced |
| `random.choice` | Any element of the list (a `:|` choice) |

## Model

| member | source | states |
|---|---|---|
| Engagement.LainKeywordsDistinct | backend/ai-agent/agent.py:220-225 | No keyword appears twice in the list. |
| Engagement.KeywordBonusCountsMatches | backend/ai-agent/agent.py:226 | Summing 2 per keyword found is twice the number of distinct keywords that occur. |
| Engagement.KeywordScore | backend/ai-agent/agent.py:220-226 | The keyword part is 2 × the number of keywords that occur in the lower-cased message. It is at most 38. |
| Engagement.MentionCollapses | backend/ai-agent/agent.py:216 | `'@lain' in m or 'lain' in m` holds exactly when "lain" occurs. |
| Engagement.MentionBonus | backend/ai-agent/agent.py:216-217 | The mention part is 5 when "lain" occurs, else 0. |
| Engagement.HistoryBonus | backend/ai-agent/agent.py:229-233 | The bonus is 0, 2, 3 or 5, and 0 without a (non-empty) history. It includes the new-user 3 exactly when message_count (default 0) is below 5, and the long-absence 2 exactly when last_interaction (default 0) exceeds 86400. |
| Engagement.ScoreRules | backend/ai-agent/agent.py:207-239 | The raw score is a sum of one term per rule:<br>• more than 10 words: +2<br>• a '?': +1<br>• "lain": +5<br>• each distinct keyword: +2<br>• the history bonus<br>• shouting: −5<br>• fewer than 3 words: −3 |
| Engagement.EngagementScore | backend/ai-agent/agent.py:241 | The score is never negative. It equals the raw score whenever that is not negative, and is 0 otherwise. |
| Engagement.ScoreBounds | backend/ai-agent/agent.py:205-241 | Every score lies in 0..51. |
| Engagement.MentionAlsoMatchesAi | backend/ai-agent/agent.py:216-226 | A message that mentions "lain" also matches the keyword "ai", so it earns at least 7. |
| Engagement.MentionSpeaks | backend/ai-agent/agent.py:205-241 | A message with ≥ 3 words that mentions Lain and is not shouting scores ≥ 7, whatever the history. |
| Engagement.KeywordPoints | backend/ai-agent/agent.py:226 | The keyword loop's total equals the keyword part `KeywordScore`. |
| Engagement.CalculateEngagementScore | backend/ai-agent/agent.py:205-241 | The running-total computation returns `EngagementScore`, the floored sum of the rules. |
| MockReply.MockResponse | backend/ai-agent/agent.py:334-393 | There is a reply for every message. It is always spoken, is one of the seven canned replies, and has mood neutral, cryptic, curious or melancholic. |
| MockReply.GreetingWins | backend/ai-agent/agent.py:339-345 | Any greeting word, as a substring, gives the "wave" reply, whatever else the message holds. |
| MockReply.LainQuestionBeforeWired | backend/ai-agent/agent.py:347-361 | With no greeting, a question that mentions Lain gets the cryptic reply, even when it names the Wired. |
| MockReply.DefaultExactlyWhenNothingMatches | backend/ai-agent/agent.py:339-393 | The default "idle" reply is given if and only if none of the six tests holds. |
| MockReply.GreetingInsideAWord | backend/ai-agent/agent.py:339 | "this is lain?" counts as a greeting, because "hi" occurs inside "this". |
| Recall.ContextStep | backend/ai-agent/agent.py:262-268 | One more hit adds its memory exactly when it scores above 0.5. |
| Recall.KnowledgeStep | backend/ai-agent/agent.py:291-299 | One more hit adds its entry exactly when it qualifies as knowledge and fewer than `limit` entries are kept. |
| Recall.RecallContext | backend/ai-agent/agent.py:261-270 | The loop returns the memories of the hits scoring above 0.5, in search order. Every returned relevance exceeds 0.5. |
| Recall.RecallKnowledge | backend/ai-agent/agent.py:290-301 | The loop returns the first `limit` knowledge hits in search order, and never more than `limit`. |
| Recall.ContextKeepsExactlyRelevant | backend/ai-agent/agent.py:261-268 | Every memory scored above 0.5, and every such hit yields one. The kept hits are a subsequence of the search result. |
| Recall.KnowledgeQualifies | backend/ai-agent/agent.py:290-299 | Each entry comes from a hit that has a 'topic', has no 'principal' and scores above 0.3, in search order. There are at most `limit` entries, and exactly `limit` when enough hits qualify. |
| Generate.ResponseData | backend/ai-agent/agent.py:434-468 | There is no dictionary exactly when the decoded JSON is not an object. Every dictionary the agent builds itself has all four keys, so a default can only apply to a decoded model object. Without a model, or when generation raises, the dictionary says to speak and carries a canned mood. Text that is not JSON gives its first 200 stripped characters; a decoded object is passed on as it is. |
| Generate.FallbackFields | backend/ai-agent/agent.py:456-463 | The fallback text is a prefix of the stripped model text of length min(200, its length). It uses "talk" and "neutral", and is spoken exactly when the score is ≥ 5. |
| Generate.GenerateResponse | backend/ai-agent/agent.py:434-491 | The endpoint answers HTTP 500 exactly when the model's text decodes to valid JSON that is not an object. |
| Generate.MockWithoutModel | backend/ai-agent/agent.py:464-468 | With no model, or when generation raises, the reply carries the canned text, animation and mood, and is spoken. |
| Generate.FallbackOnInvalidJson | backend/ai-agent/agent.py:445-463 | Text that is not JSON gets the first 200 characters of the stripped text, "talk" and "neutral". It is spoken iff the score is ≥ 5. |
| Generate.DefaultsForMissingFields | backend/ai-agent/agent.py:481-487 | A decoded object keeps its fields. Each missing one takes its default. |
| Generate.ShortFallbackNeedsFourKeywords | backend/ai-agent/agent.py:458-463 | A fallback for a short message without "lain", '?' or shouting is spoken only when four keywords occur in it. |
| Text.Lower | backend/ai-agent/agent.py:208 | Lower-casing keeps the length and maps each character alone: each upper-case letter becomes the same letter in lower case, and nothing else changes. |
| Text.LowerIdempotent | backend/animation/animation_server.py:50-51 | Lower-casing twice is lower-casing once. |
| Text.WordCountAllSpace | backend/ai-agent/agent.py:211 | A string of whitespace only has no words. |
| Text.WordCountSplit | backend/ai-agent/agent.py:211 | Around a whitespace character the counts add up: `len((a + c + b).split()) == len(a.split()) + len(b.split())`. |
| Text.WordCountNoSpace | backend/ai-agent/agent.py:211 | A non-empty string with no whitespace is one word. |
| Text.IsUpper | backend/ai-agent/agent.py:236 | `isupper()` holds exactly when lower-casing changes the text and it has no lower-case letter; it never holds for "". |
| Text.Strip | backend/ai-agent/agent.py:445 | The result is a contiguous part of the input with only whitespace around it. It neither starts nor ends with whitespace. |
| Text.ContainsTransitive | backend/ai-agent/agent.py:216 | A substring of a substring is a substring. |
| Text.Decimal | src/lain-tv-backend/src/lib.rs:264 | The rendering is non-empty and all digits, with no leading zero. |
| Text.DecimalRoundTrip | src/lain-tv-backend/src/lib.rs:264 | Reading back the digits of a rendered number gives the number. |
| Seqs.FilterIsSubsequence | src/lain-tv-backend/src/lib.rs:129 | Filtering keeps elements in their original order. |
| Seqs.FilterComplete | src/lain-tv-backend/src/lib.rs:129 | Filtering drops nothing that satisfies the test. |
| LexOrder.Transitive | src/lain-tv-backend/src/lib.rs:80-84 | String order is transitive. |
| LexOrder.Total | src/lain-tv-backend/src/lib.rs:80-84 | Two different strings are ordered one way or the other. |
| LexOrder.SortedKeys | src/lain-tv-backend/src/lib.rs:108-116 | The map's keys, each exactly once, in strictly increasing order. |
| LainTvBackend.CurrentTime | src/lain-tv-backend/src/lib.rs:96-98 | Below 2^63 ns, the result is nanoseconds / 1 000 000. At or above it, the `i64` cast wraps to a non-positive time. |
| LainTvBackend.IsAdmin | src/lain-tv-backend/src/lib.rs:100-104 | The admin test is concrete: the canister's own principal is always admin, and a principal text shorter than the 11-character marker "rdmx6-jaaaa" is admin only when it is the canister. |
| LainTvBackend.AdminByMarker | src/lain-tv-backend/src/lib.rs:103 | The marker counts anywhere in the text: the Internet Identity principal and every text embedding the marker are admins of any canister; the anonymous principal "2vxsx-fae" is not, unless it is the canister. |
| LainTvBackend.MockVideos | src/lain-tv-backend/src/lib.rs:272-315 | The result is the videos "1", "2" and "3". Each is fetched "now", has status Ok, and was published 1, 2 or 3 days earlier. |
| LainTvBackend.MockIds | src/lain-tv-backend/src/lib.rs:275-313 | The sample ids are exactly {"1","2","3"}, with no repeats. |
| LainTvBackend.UpsertAll | src/lain-tv-backend/src/lib.rs:255-260 | Inserting a list adds exactly the list's ids to the key set. |
| LainTvBackend.UpsertAllStores | src/lain-tv-backend/src/lib.rs:340-345 | With distinct ids, each inserted video is stored under its id. Every other key keeps its video. |
| LainTvBackend.MockUpsertKeys | src/lain-tv-backend/src/lib.rs:252-260 | `init` stores keys {"1","2","3"}, each video as created. A later poll stores no new keys. |
| LainTvBackend.Listing | src/lain-tv-backend/src/lib.rs:108-116 | The listing has one entry per stored key, and holds exactly the stored videos. |
| LainTvBackend.ListingSorted | src/lain-tv-backend/src/lib.rs:108-116 | When videos are keyed by id, the listed ids strictly increase. |
| LainTvBackend.HttpErrorNamesStatus | src/lain-tv-backend/src/lib.rs:264 | The error reads "HTTP error: " followed by the three digits that denote the status. |
| LainTvBackend.Canister.Init | src/lain-tv-backend/src/lib.rs:336-346 | The initial state: the sample videos upserted into an empty map, the default poll configuration, no last poll and no timer. |
| LainTvBackend.Canister.ListVideos | src/lain-tv-backend/src/lib.rs:108-116 | Every stored video appears exactly once (length = size), in increasing id order. |
| LainTvBackend.Canister.GetVideo | src/lain-tv-backend/src/lib.rs:118-121 | The result is Some exactly when the id is stored. That video bears the id and is listed. |
| LainTvBackend.Canister.GetVideosByChannel | src/lain-tv-backend/src/lib.rs:123-133 | The result is exactly the stored videos whose channel matches ignoring case, in listing order. |
| LainTvBackend.Canister.GetPollConfig | src/lain-tv-backend/src/lib.rs:226-229 | The stored configuration. It is enabled exactly when a poll timer is recorded. |
| LainTvBackend.Canister.GetStats | src/lain-tv-backend/src/lib.rs:323-332 | The total is the listing's length. The last poll is the stored one. |
| LainTvBackend.Canister.InsertAll | src/lain-tv-backend/src/lib.rs:340-345 | The insertion loop gives `UpsertAll` of the old map, and keeps videos keyed by id. |
| LainTvBackend.Canister.AddOrUpdateVideo | src/lain-tv-backend/src/lib.rs:135-148 | Any caller succeeds. The video is stored under its id, stamped with the current time. No other id changes. |
| LainTvBackend.Canister.RemoveVideo | src/lain-tv-backend/src/lib.rs:150-164 | A non-admin gets "Access denied" and nothing changes. An admin removes a stored id (Ok), or gets "Video not found" with nothing changed. The result is Ok iff admin and stored. |
| LainTvBackend.Canister.PerformFetch | src/lain-tv-backend/src/lib.rs:232-269 | On status 200, the sample videos are upserted and the count is 3. Any other outcome gives its error text and no change. |
| LainTvBackend.Canister.PollOnce | src/lain-tv-backend/src/lib.rs:175-183 | A successful fetch is recorded as the last poll. A failed one gives "Poll failed: " + the error and changes nothing. |
| LainTvBackend.Canister.ManualPoll | src/lain-tv-backend/src/lib.rs:167-184 | A non-admin gets "Access denied" with no change. For an admin, the call behaves as `PollOnce`. The invariant is kept. |
| LainTvBackend.Canister.ClearTimer | src/lain-tv-backend/src/lib.rs:196-198 | A cleared timer stops waiting. |
| LainTvBackend.Canister.SetTimer | src/lain-tv-backend/src/lib.rs:208-216 | A new one-shot timer waits under a fresh handle. |
| LainTvBackend.Canister.SetPollConfig | src/lain-tv-backend/src/lib.rs:186-224 | A non-admin changes nothing. An admin's call keeps the invariant and does three things:<br>• stores the configuration;<br>• cancels the old timer;<br>• leaves exactly one timer waiting, for `interval_seconds`, under the next fresh handle (so the handle counter advances by one), if enabled, and none otherwise with the counter unchanged. |
| LainTvBackend.Canister.FirePollTimer | src/lain-tv-backend/src/lib.rs:209-215 | The callback upserts the sample videos only on status 200, but records the poll time always. Afterwards no timer waits. |
| Animation.MoodsListed | backend/animation/animation_server.py:17-38 | The table's moods, in order, are neutral, happy, curious, cryptic and playful. |
| Animation.TableWellFormed | backend/animation/animation_server.py:17-38 | The moods are distinct, and every animation list is non-empty. |
| Animation.Options | backend/animation/animation_server.py:62 | Every mood and state has at least one animation. |
| Animation.NormalizeMood | backend/animation/animation_server.py:50-55 | The lower-cased mood is kept when the table has it, else "neutral". The result is always a table mood. |
| Animation.NormalizeState | backend/animation/animation_server.py:51-59 | The lower-cased state is kept when it is "idle" or "speaking", else "idle". |
| Animation.GetAnimation | backend/animation/animation_server.py:48-77 | The reply echoes the normalised mood and state, picks one of the animations listed for them, and loops iff the state is "idle". |
| Animation.NormalizeIdempotent | backend/animation/animation_server.py:50-59 | Normalising the echoed mood or state again changes nothing. |
| Animation.MockMoodsNormalize | backend/animation/animation_server.py:50-55 | The canned moods keep their names, except "melancholic", which becomes "neutral". |
| Animation.AgentMoodsSelectRows | backend/animation/animation_server.py:54-55 | Every canned reply's mood selects its own row, except "melancholic", which falls back to "neutral". |
| Animation.MoodsNormalize | backend/animation/animation_server.py:92 | Every listed mood normalises to itself. |
| Animation.GetMoods | backend/animation/animation_server.py:89-94 | The listed moods are the table's five, in order, each a fixed point of normalisation. The states are "idle" and "speaking". |

## Left out

- **Services outside the core.** These are boundaries: they become parameters, or are dropped.
  - The language model call, the sentence encoder, and the Qdrant search and upsert. Search results and the model's text are inputs.
  - The regular-expression extraction of a `{…}` span, and `json.loads`. The outcome of decoding is an input.
  - Redis, FastAPI routing, logging and `processing_time`.
- **Unused or auxiliary agent code.** These do not affect any reply the model describes.
  - `remember_interaction`: it writes to the store and does not affect the reply.
  - Building the prompt from knowledge and context. The prompt does not use `context_str`.
- **Value-level details.**
  - `Text.Lower`: maps ASCII letters only. Python's `str.lower`, `str.isupper` and Rust's `to_lowercase` follow Unicode, so non-ASCII letters are not case-mapped here.
  - Pydantic validation of decoded field types. A decoded field is taken to have its declared type.
  - `format!("{:?}", err)` of a failed outcall is taken to be the failure's detail text.
  - `LainTvBackend.HttpErrorNamesStatus`: the status of an outcall's response is a candid `Nat`; the model admits only three-digit HTTP codes, so how `format!` would render a larger number is not modelled.
- **Internet Computer plumbing.**
  - `http_request` and `time()`.
  - Principals (compared through their text).
  - `Storable` serialisation and the candid export.
  - The stable-memory manager.
  - `whoami`.
  - `LainTvBackend.Canister.ListVideos` and `GetVideosByChannel` are defined on the map's sorted key list rather than computed by an iterator, because the B-tree's internals are not part of this model.
- **Message interleaving.**
  - `LainTvBackend.Canister.ManualPoll`: treats the awaited outcall and the code after it as one step with one clock reading. Other messages that run in between are not modelled.
  - `LainTvBackend.Canister.FirePollTimer`: treats the spawned future's fetch and its time stamp as one step, for the same reason.
- **Integer widths.**
  - `LainTvBackend.Canister.GetStats`: `total_videos` is a `nat`, not a `u64`. The map never comes near 2^64 entries.
- **Endpoints outside the core.**
  - The constant `duration` of the animation reply.
  - The `/health` and `/current` endpoints, and the agent's `/stats`.
- **Other repository parts.** Other files do these; none is modelled.
  - The text-to-speech server and the knowledge-ingestion script.
