/**
  The animation server's selection logic (backend/animation/animation_server.py):
  the table of animations per mood and state, the normalisation of a request's mood
  and state, the choice of one animation, and the listing of moods and states.
  The Redis cache writes are outside the model.
 */
module Animation {
  import opened Text
  import MockReply

  /** One mood's row of the `ANIMATIONS` table. */
  datatype MoodAnimations = MoodAnimations(mood: string, idle: seq<string>, speaking: seq<string>)

  /** `ANIMATIONS`, its moods in the dictionary's order. */
  const Table: seq<MoodAnimations> := [
    MoodAnimations("neutral", ["breathing", "blink", "slight_head_tilt"], ["talking_neutral", "mouth_movement"]),
    MoodAnimations("happy", ["smile", "cheerful_blink"], ["talking_happy", "excited_gestures"]),
    MoodAnimations("curious", ["head_tilt", "questioning_look", "eye_movement"], ["talking_curious", "thinking_gesture"]),
    MoodAnimations("cryptic", ["mysterious_stare", "slow_blink", "glitch_effect"], ["talking_cryptic", "eerie_movements", "digital_distortion"]),
    MoodAnimations("playful", ["playful_smile", "wink"], ["talking_playful", "bouncy_movements"])
  ]

  /** The two states a request may name. */
  const States: seq<string> := ["idle", "speaking"]

  /** `list(ANIMATIONS.keys())`. */
  function Moods(): (r: seq<string>)
    ensures |r| == |Table| && forall i | 0 <= i < |Table| :: r[i] == Table[i].mood
  {
    seq(|Table|, i requires 0 <= i < |Table| => Table[i].mood)
  }

  /** The table's moods, in order. */
  lemma MoodsListed()
    ensures Moods() == ["neutral", "happy", "curious", "cryptic", "playful"]
  {
  }

  /** The table is well formed: its moods are distinct and every list is non-empty. */
  lemma TableWellFormed()
    ensures forall i, j | 0 <= i < j < |Table| :: Table[i].mood != Table[j].mood
    ensures forall e | e in Table :: |e.idle| > 0 && |e.speaking| > 0
  {
  }

  /** The row of `rows` for `mood`. */
  function Row(rows: seq<MoodAnimations>, mood: string): (e: MoodAnimations)
    requires exists e | e in rows :: e.mood == mood
    ensures e in rows && e.mood == mood
    decreases |rows|
  {
    if rows[0].mood == mood then rows[0] else Row(rows[1..], mood)
  }

  /** `ANIMATIONS[mood][state]`. */
  function Options(mood: string, state: string): (r: seq<string>)
    requires mood in Moods() && state in States
    ensures |r| > 0
  {
    assert exists e | e in Table :: e.mood == mood by {
      var i :| 0 <= i < |Moods()| && Moods()[i] == mood;
      assert Table[i] in Table;
    }
    var e := Row(Table, mood);
    TableWellFormed();
    if state == "idle" then e.idle else e.speaking
  }

  /** The mood a request's mood selects: itself lower-cased when the table has it, else "neutral". */
  function NormalizeMood(mood: string): (m: string)
    ensures m in Moods()
    ensures Lower(mood) in Moods() ==> m == Lower(mood)
    ensures Lower(mood) !in Moods() ==> m == "neutral"
  {
    MoodsListed();
    var lower := Lower(mood);
    if lower in Moods() then lower else "neutral"
  }

  /** The state a request's state selects: "idle" or "speaking" (after lower-casing), else "idle". */
  function NormalizeState(state: string): (s: string)
    ensures s == "idle" || s == "speaking"
    ensures Lower(state) in States ==> s == Lower(state)
    ensures Lower(state) !in States ==> s == "idle"
  {
    var lower := Lower(state);
    if lower in States then lower else "idle"
  }

  /** The request body; pydantic supplies "neutral" and "idle" when a field is absent. */
  datatype AnimationRequest = AnimationRequest(mood: string, state: string)

  /** The reply, without its constant `duration`. */
  datatype AnimationResponse = AnimationResponse(animation: string, mood: string, state: string, loop: bool)

  /** `get_animation`: normalise, look up, and pick any one of the listed animations. */
  method GetAnimation(request: AnimationRequest) returns (response: AnimationResponse)
    ensures response.mood == NormalizeMood(request.mood) && response.mood in Moods()
    ensures response.state == NormalizeState(request.state) && response.state in States
    ensures response.animation in Options(response.mood, response.state)
    ensures response.loop <==> response.state == "idle"
  {
    var mood := Lower(request.mood);
    var state := Lower(request.state);
    MoodsListed();
    if mood !in Moods() {
      mood := "neutral";
    }
    if state !in States {
      state := "idle";
    }
    var animations := Options(mood, state);
    assert animations[0] in animations;
    var animation :| animation in animations;
    response := AnimationResponse(animation, mood, state, state == "idle");
  }

  /** Normalising twice changes nothing more: the echoed mood and state are fixed points. */
  lemma NormalizeIdempotent(mood: string, state: string)
    ensures NormalizeMood(NormalizeMood(mood)) == NormalizeMood(mood)
    ensures NormalizeState(NormalizeState(state)) == NormalizeState(state)
  {
    LowerIdempotent(mood);
    LowerIdempotent(state);
    LowerUnchanged("neutral");
    LowerUnchanged("idle");
  }

  /** The agent's canned moods reach the table as "neutral", "curious" or "cryptic";
      its "melancholic", which the table lacks, becomes "neutral". */
  lemma AgentMoodsSelectRows(message: string)
    ensures var mood := MockReply.MockResponse(message).mood;
      NormalizeMood(mood) == (if mood == "melancholic" then "neutral" else mood)
  {
    MockMoodsNormalize(MockReply.MockResponse(message).mood);
  }

  lemma MockMoodsNormalize(mood: string)
    requires mood in MockReply.MockMoods
    ensures NormalizeMood(mood) == (if mood == "melancholic" then "neutral" else mood)
  {
    LowerUnchanged(mood);
    if mood == "melancholic" {
      assert mood !in Moods() by {
        MoodsListed();
      }
    } else {
      assert mood in Moods() by {
        MoodsListed();
      }
    }
  }

  /** The `/moods` reply. */
  datatype MoodsResponse = MoodsResponse(moods: seq<string>, states: seq<string>)

  /** `get_moods`: the table's moods in order, and the two states. */
  function GetMoods(): (r: MoodsResponse)
    ensures r.moods == ["neutral", "happy", "curious", "cryptic", "playful"]
    ensures r.states == ["idle", "speaking"]
    ensures forall m | m in r.moods :: NormalizeMood(m) == m
  {
    MoodsListed();
    MoodsNormalize();
    MoodsResponse(Moods(), States)
  }

  /** Every mood of the table normalises to itself. */
  lemma MoodsNormalize()
    ensures forall m | m in Moods() :: NormalizeMood(m) == m
  {
    MoodsListed();
    forall m | m in Moods() ensures NormalizeMood(m) == m {
      LowerUnchanged(m);
    }
  }
}
