/**
  The video catalogue canister (src/lain-tv-backend/src/lib.rs): a key-ordered map of
  videos with upsert, admin-only removal, listing and channel filtering, and the polling
  state (configuration, time of the last poll, the handle of the poll timer).

  The system's services are parameters: the clock is the nanosecond reading the method
  sees, the caller is its principal's text, and an HTTP outcall is its outcome. The timer
  service is modelled by the set of scheduled one-shot timers and the next handle it
  will give out.
 */
module LainTvBackend {
  import opened Wrappers
  import Text
  import Seqs
  import LexOrder

  type U64 = x: int | 0 <= x < 0x1_0000_0000_0000_0000
  type I64 = x: int | -0x8000_0000_0000_0000 <= x < 0x8000_0000_0000_0000

  type VideoId = string
  /** Milliseconds since the epoch. */
  type Timestamp = I64

  datatype FetchStatus = StatusOk | NotFound | Error(reason: string) | Pending

  datatype Video = Video(
    id: VideoId,
    title: string,
    description: string,
    channel: string,
    odyseeUrl: string,
    thumbnailUrl: Option<string>,
    publishedAt: Timestamp,
    fetchedAt: Timestamp,
    contentHash: Option<string>,
    fetchStatus: FetchStatus,
    license: Option<string>)

  datatype PollConfig = PollConfig(intervalSeconds: U64, enabled: bool)

  /** `Result_`: what every update call answers. */
  datatype CallResult = Ok | Err(message: string)

  datatype Stats = Stats(totalVideos: nat, lastPoll: Option<Timestamp>)

  /** A day between polls, polling off. */
  const DefaultPollConfig := PollConfig(86400, false)

  const AccessDenied := "Access denied: admin required"
  const VideoNotFound := "Video not found"

  /** A value `get_current_time` can give: an `i64` divided by 1 000 000. */
  type Millis = t: int | -9_223_372_036_854 <= t <= 9_223_372_036_854

  /** `get_current_time`: the clock's nanoseconds cast to `i64` (wrapping) and divided,
      truncating toward zero, by 1 000 000. */
  function CurrentTime(nanos: U64): (ms: Millis)
    ensures nanos < 0x8000_0000_0000_0000 ==> ms == nanos / 1_000_000
    ensures nanos >= 0x8000_0000_0000_0000 ==> ms <= 0
  {
    var signed := if nanos < 0x8000_0000_0000_0000 then nanos else nanos - 0x1_0000_0000_0000_0000;
    if signed >= 0 then signed / 1_000_000 else -((-signed) / 1_000_000)
  }

  /** The part of a principal's text that `is_admin` accepts anywhere in it. */
  const AdminMarker := "rdmx6-jaaaa"

  /** `is_admin`: the canister itself, or a principal whose text contains "rdmx6-jaaaa". */
  function IsAdmin(caller: string, canisterId: string): (admin: bool)
    ensures caller == canisterId ==> admin
    ensures |caller| < |AdminMarker| ==> (admin <==> caller == canisterId)
  {
    caller == canisterId || Text.Contains(caller, AdminMarker)
  }

  /** The marker is matched anywhere in the text: the Internet Identity canister's principal, and any
      text that embeds it, are admins of every canister; the anonymous principal is not, unless it is
      the canister. */
  lemma AdminByMarker(canisterId: string, prefix: string, suffix: string)
    ensures IsAdmin("rdmx6-jaaaa-aaaaa-aaadq-cai", canisterId)
    ensures IsAdmin(prefix + AdminMarker + suffix, canisterId)
    ensures IsAdmin("2vxsx-fae", canisterId) <==> canisterId == "2vxsx-fae"
  {
    assert Text.OccursAt("rdmx6-jaaaa-aaaaa-aaadq-cai", AdminMarker, 0);
    assert Text.OccursAt(prefix + AdminMarker + suffix, AdminMarker, |prefix|);
  }

  /** The ids of `vs`. */
  function Ids(vs: seq<Video>): (ids: set<VideoId>)
    ensures forall i | 0 <= i < |vs| :: vs[i].id in ids
    decreases |vs|
  {
    if |vs| == 0 then {} else Ids(vs[..|vs| - 1]) + {vs[|vs| - 1].id}
  }

  predicate DistinctIds(vs: seq<Video>) {
    forall i, j | 0 <= i < j < |vs| :: vs[i].id != vs[j].id
  }

  /** The texts of one sample video. */
  datatype SampleText = SampleText(id: VideoId, title: string, description: string, channel: string, odyseeUrl: string)

  /** The texts of `create_mock_videos`' three videos, in order. */
  const SampleTexts: seq<SampleText> := [
    SampleText("1", "Decentralized Future on ICP", "Exploring blockchain technology and the Internet Computer",
               "TechLain", "https://odysee.com/@lainlives:c/decentralized-tech:e"),
    SampleText("2", "Cyberpunk Aesthetics & Digital Art", "Visual culture in the digital age",
               "VisualLain", "https://odysee.com/@lainlives:c/cyberpunk-culture:3"),
    SampleText("3", "Web3 Development Tutorial", "Building decentralized apps on Internet Computer",
               "DevLain", "https://odysee.com/@lainlives:c/icp-development:7")
  ]

  /** The sample video numbered `i` (from 0), fetched `now` and published `i + 1` days earlier. */
  function SampleVideo(i: nat, now: Millis): (v: Video)
    requires i < |SampleTexts|
  {
    var t := SampleTexts[i];
    Video(t.id, t.title, t.description, t.channel, t.odyseeUrl, None,
          now - (i + 1) * 86400000, now, None, StatusOk, Some("Creative Commons"))
  }

  /** `create_mock_videos`: the three sample videos, fetched `now` and published one, two and
      three days earlier. */
  function MockVideos(now: Millis): (vs: seq<Video>)
    ensures |vs| == 3 && vs[0].id == "1" && vs[1].id == "2" && vs[2].id == "3"
    ensures forall i | 0 <= i < 3 :: vs[i].fetchedAt == now && vs[i].fetchStatus == StatusOk
    ensures forall i | 0 <= i < 3 :: vs[i].publishedAt == now - (i + 1) * 86400000
  {
    [SampleVideo(0, now), SampleVideo(1, now), SampleVideo(2, now)]
  }

  /** The map after inserting `vs` one after another, each under its own id. */
  function UpsertAll(m: map<VideoId, Video>, vs: seq<Video>): (r: map<VideoId, Video>)
    ensures r.Keys == m.Keys + Ids(vs)
    decreases |vs|
  {
    if |vs| == 0 then m else UpsertAll(m, vs[..|vs| - 1])[vs[|vs| - 1].id := vs[|vs| - 1]]
  }

  lemma UpsertAllStep(m: map<VideoId, Video>, vs: seq<Video>, i: nat)
    requires i < |vs|
    ensures UpsertAll(m, vs[..i + 1]) == UpsertAll(m, vs[..i])[vs[i].id := vs[i]]
  {
    assert vs[..i + 1][..i] == vs[..i];
  }

  /** With distinct ids every inserted video is stored as given, and every other key keeps its video. */
  lemma {:induction false} UpsertAllStores(m: map<VideoId, Video>, vs: seq<Video>)
    requires DistinctIds(vs)
    ensures forall i | 0 <= i < |vs| :: UpsertAll(m, vs)[vs[i].id] == vs[i]
    ensures forall id | id in m && id !in Ids(vs) :: UpsertAll(m, vs)[id] == m[id]
    decreases |vs|
  {
    if |vs| > 0 {
      var init := vs[..|vs| - 1];
      assert DistinctIds(init) by {
        forall i, j | 0 <= i < j < |init| ensures init[i].id != init[j].id {
          assert init[i] == vs[i] && init[j] == vs[j];
        }
      }
      UpsertAllStores(m, init);
      forall i | 0 <= i < |vs| - 1 ensures UpsertAll(m, vs)[vs[i].id] == vs[i] {
        assert init[i] == vs[i];
      }
    }
  }

  /** `init` stores exactly the videos "1", "2" and "3", each as created; upserting the
      sample videos again leaves the keys as they are. */
  lemma MockUpsertKeys(m: map<VideoId, Video>, now: Millis, later: Millis)
    ensures UpsertAll(map[], MockVideos(now)).Keys == {"1", "2", "3"}
    ensures UpsertAll(UpsertAll(m, MockVideos(now)), MockVideos(later)).Keys == UpsertAll(m, MockVideos(now)).Keys
    ensures forall v | v in MockVideos(now) :: UpsertAll(m, MockVideos(now))[v.id] == v
  {
    MockIds(now);
    MockIds(later);
    var vs := MockVideos(now);
    UpsertAllStores(m, vs);
  }

  /** The sample videos' ids are "1", "2" and "3", each once. */
  lemma MockIds(now: Millis)
    ensures Ids(MockVideos(now)) == {"1", "2", "3"} && DistinctIds(MockVideos(now))
  {
    var vs := MockVideos(now);
    assert vs[..2][..1] == vs[..1] && vs[..1][..0] == [];
    assert Ids(vs[..1]) == {"1"};
    assert Ids(vs[..2]) == {"1", "2"};
  }

  /** The stored videos in increasing order of key. */
  ghost function Listing(m: map<VideoId, Video>): (r: seq<Video>)
    ensures |r| == |m|
    ensures forall v :: v in r <==> v in m.Values
  {
    var keys := LexOrder.SortedKeys(m.Keys);
    assert |m.Keys| == |m|;
    var r := seq(|keys|, i requires 0 <= i < |keys| => m[keys[i]]);
    forall v | v in m.Values ensures v in r {
      var k :| k in m && m[k] == v;
      var i :| 0 <= i < |keys| && keys[i] == k;
      assert r[i] == v;
    }
    r
  }

  /** When the videos are keyed by their ids the listing's ids increase strictly. */
  lemma ListingSorted(m: map<VideoId, Video>)
    ensures KeyedById(m) ==> forall i, j | 0 <= i < j < |Listing(m)| :: LexOrder.Less(Listing(m)[i].id, Listing(m)[j].id)
  {
    if KeyedById(m) {
      var keys := LexOrder.SortedKeys(m.Keys);
      var r := Listing(m);
      assert forall i | 0 <= i < |keys| :: r[i] == m[keys[i]];
      forall i, j | 0 <= i < j < |r| ensures LexOrder.Less(r[i].id, r[j].id) {
        assert r[i].id == keys[i] && r[j].id == keys[j];
      }
    }
  }


  /** An HTTP status code: three decimal digits (section 15 of RFC 9110). */
  type HttpStatus = s: int | 100 <= s <= 999 witness 200

  /** `perform_odysee_fetch`'s outcome on the wire. */
  datatype HttpOutcome = Response(status: HttpStatus) | RequestFailed(detail: string)

  /** `perform_odysee_fetch`'s result: the number of videos stored, or an error text. */
  datatype FetchResult = Fetched(count: nat) | FetchFailed(error: string)

  /** The error text of a fetch that did not get status 200. */
  function FetchError(outcome: HttpOutcome): string {
    match outcome
    case Response(status) => "HTTP error: " + Text.Decimal(status)
    case RequestFailed(detail) => "Request failed: " + detail
  }

  /** `format!("Poll failed: {}", e)`. */
  function PollFailed(e: string): string {
    "Poll failed: " + e
  }

  /** The error text names the status, which reads back from its digits. */
  lemma HttpErrorNamesStatus(status: HttpStatus)
    ensures var e := FetchError(Response(status));
      |e| == 15 && e[..12] == "HTTP error: " && Text.DecimalValue(e[12..]) == status
  {
    var e := FetchError(Response(status));
    assert |Text.Decimal(status / 10 / 10)| == 1;
    assert |Text.Decimal(status / 10)| == 2;
    assert e[12..] == Text.Decimal(status);
    Text.DecimalRoundTrip(status);
  }

  predicate SameChannel(a: string, b: string) {
    Text.Lower(a) == Text.Lower(b)
  }

  /** Every video is stored under its own id. */
  predicate KeyedById(m: map<VideoId, Video>) {
    forall id | id in m :: m[id].id == id
  }

  type TimerId = nat

  /** The only timer that can be waiting is the recorded poll timer, every handle was given
      out already, and a handle is recorded exactly when polling is enabled. */
  predicate TimersAgree(config: PollConfig, pollTimer: Option<TimerId>, scheduled: map<TimerId, U64>, nextTimer: TimerId) {
    && (forall t | t in scheduled :: t < nextTimer && pollTimer == Some(t))
    && (pollTimer.Some? ==> pollTimer.value < nextTimer)
    && (config.enabled <==> pollTimer.Some?)
  }

  class Canister {
    /** `canister_self()`. */
    const canisterId: string
    /** `VIDEOS`. */
    var videos: map<VideoId, Video>
    /** `POLL_CONFIG`. */
    var pollConfig: PollConfig
    /** `LAST_POLL`. */
    var lastPoll: Option<Timestamp>
    /** `POLL_TIMER_ID`. */
    var pollTimer: Option<TimerId>
    /** The timer service: the timers waiting to fire, with their delays in seconds. */
    var scheduled: map<TimerId, U64>
    /** The timer service: the handle the next timer will get. */
    var nextTimer: TimerId

    /** The videos are keyed by their ids and the timers agree with the configuration. */
    ghost predicate Valid()
      reads this`videos, this`pollConfig, this`pollTimer, this`scheduled, this`nextTimer
    {
      KeyedById(videos) && TimersAgree(pollConfig, pollTimer, scheduled, nextTimer)
    }

    /** The thread-local initial state followed by `init`, which stores the sample videos. */
    constructor Init(canisterId: string, clock: U64)
      ensures Valid() && this.canisterId == canisterId
      ensures videos == UpsertAll(map[], MockVideos(CurrentTime(clock)))
      ensures pollConfig == DefaultPollConfig && lastPoll == None && pollTimer == None && scheduled == map[]
    {
      this.canisterId := canisterId;
      videos := map[];
      pollConfig := DefaultPollConfig;
      lastPoll := None;
      pollTimer := None;
      scheduled := map[];
      nextTimer := 0;
      new;
      InsertAll(MockVideos(CurrentTime(clock)));
    }

    /** `list_videos`: every stored video once, in increasing order of id. */
    ghost function ListVideos(): (r: seq<Video>)
      reads this
      ensures |r| == |videos|
      ensures forall v :: v in r <==> v in videos.Values
      ensures Valid() ==> forall i, j | 0 <= i < j < |r| :: LexOrder.Less(r[i].id, r[j].id)
    {
      ListingSorted(videos);
      Listing(videos)
    }

    /** `get_video`: the video stored under `id`, if any, which is the listed video with that id. */
    function GetVideo(id: VideoId): (r: Option<Video>)
      reads this
      ensures r.Some? <==> id in videos
      ensures r.Some? ==> r.value == videos[id]
      ensures Valid() && r.Some? ==> r.value.id == id && r.value in ListVideos()
    {
      if id in videos then Some(videos[id]) else None
    }

    /** `get_videos_by_channel`: exactly the stored videos whose channel equals `channel`
        ignoring case, in the order `list_videos` gives them. */
    ghost function GetVideosByChannel(channel: string): (r: seq<Video>)
      reads this
      ensures forall v | v in r :: v in videos.Values && SameChannel(v.channel, channel)
      ensures forall v | v in videos.Values && SameChannel(v.channel, channel) :: v in r
      ensures Seqs.IsSubsequence(r, ListVideos())
    {
      var all := ListVideos();
      var matches := (v: Video) => SameChannel(v.channel, channel);
      var r := Seqs.Filter(all, matches);
      forall v | v in videos.Values && SameChannel(v.channel, channel) ensures v in r {
        Seqs.FilterComplete(all, matches, v);
      }
      Seqs.FilterIsSubsequence(all, matches);
      r
    }

    /** `get_poll_config`: the stored configuration, enabled exactly when a poll timer is recorded. */
    function GetPollConfig(): (r: PollConfig)
      reads this
      ensures r == pollConfig
      ensures Valid() ==> (r.enabled <==> pollTimer.Some?)
    {
      pollConfig
    }

    /** `get_stats`: the number of stored videos, which is the length of the listing, and the last poll. */
    function GetStats(): (s: Stats)
      reads this
      ensures s.totalVideos == |ListVideos()|
      ensures s.lastPoll == lastPoll
    {
      Stats(|videos|, lastPoll)
    }

    /** The loop of `init` and of a successful fetch: insert each video under its id. */
    method InsertAll(vs: seq<Video>)
      requires KeyedById(videos)
      modifies this`videos
      ensures KeyedById(videos)
      ensures videos == UpsertAll(old(videos), vs)
    {
      for i := 0 to |vs|
        invariant KeyedById(videos)
        invariant videos == UpsertAll(old(videos), vs[..i])
      {
        UpsertAllStep(old(videos), vs, i);
        videos := videos[vs[i].id := vs[i]];
      }
      assert vs[..|vs|] == vs;
    }

    /** `add_or_update_video`: anyone may store a video; it is stamped with the current time. */
    method AddOrUpdateVideo(video: Video, clock: U64) returns (r: CallResult)
      requires Valid()
      modifies this`videos
      ensures Valid() && r == Ok
      ensures videos == old(videos)[video.id := video.(fetchedAt := CurrentTime(clock))]
      ensures GetVideo(video.id) == Some(video.(fetchedAt := CurrentTime(clock)))
      ensures forall id | id != video.id :: GetVideo(id) == old(GetVideo(id))
    {
      var updated := video.(fetchedAt := CurrentTime(clock));
      videos := videos[updated.id := updated];
      r := Ok;
    }

    /** `remove_video`: only an admin may remove, and only a stored id. */
    method RemoveVideo(caller: string, id: VideoId) returns (r: CallResult)
      requires Valid()
      modifies this`videos
      ensures Valid()
      ensures !IsAdmin(caller, canisterId) ==> r == Err(AccessDenied) && videos == old(videos)
      ensures IsAdmin(caller, canisterId) && id in old(videos) ==> r == Ok && videos == old(videos) - {id}
      ensures IsAdmin(caller, canisterId) && id !in old(videos) ==> r == Err(VideoNotFound) && videos == old(videos)
      ensures r == Ok <==> IsAdmin(caller, canisterId) && id in old(videos)
      ensures IsAdmin(caller, canisterId) ==> id !in videos
    {
      if !IsAdmin(caller, canisterId) {
        return Err(AccessDenied);
      }
      if id in videos {
        videos := videos - {id};
        r := Ok;
      } else {
        r := Err(VideoNotFound);
      }
    }

    /** `perform_odysee_fetch`: on status 200 the sample videos are stored, stamped with the current time. */
    method PerformFetch(clock: U64, outcome: HttpOutcome) returns (r: FetchResult)
      requires KeyedById(videos)
      modifies this`videos
      ensures KeyedById(videos)
      ensures r.Fetched? <==> outcome == Response(200)
      ensures r.Fetched? ==> r.count == 3 && videos == UpsertAll(old(videos), MockVideos(CurrentTime(clock)))
      ensures r.FetchFailed? ==> r.error == FetchError(outcome) && videos == old(videos)
    {
      match outcome
      case Response(status) =>
        if status == 200 {
          var mock := MockVideos(CurrentTime(clock));
          InsertAll(mock);
          r := Fetched(|mock|);
        } else {
          r := FetchFailed("HTTP error: " + Text.Decimal(status));
        }
      case RequestFailed(detail) =>
        r := FetchFailed("Request failed: " + detail);
    }

    /** `manual_poll`: an admin's poll records its time only when the fetch succeeds. */
    method ManualPoll(caller: string, clock: U64, outcome: HttpOutcome) returns (r: CallResult)
      requires Valid()
      modifies this`videos, this`lastPoll
      ensures Valid()
      ensures !IsAdmin(caller, canisterId) ==>
        r == Err(AccessDenied) && videos == old(videos) && lastPoll == old(lastPoll)
      ensures IsAdmin(caller, canisterId) && outcome == Response(200) ==>
        r == Ok && videos == UpsertAll(old(videos), MockVideos(CurrentTime(clock))) && lastPoll == Some(CurrentTime(clock))
      ensures IsAdmin(caller, canisterId) && outcome != Response(200) ==>
        r == Err(PollFailed(FetchError(outcome))) && videos == old(videos) && lastPoll == old(lastPoll)
    {
      if !IsAdmin(caller, canisterId) {
        return Err(AccessDenied);
      }
      r := PollOnce(clock, outcome);
    }

    /** The admin branch of `manual_poll`: fetch, and on success record the time of the poll. */
    method PollOnce(clock: U64, outcome: HttpOutcome) returns (r: CallResult)
      requires KeyedById(videos)
      modifies this`videos, this`lastPoll
      ensures KeyedById(videos)
      ensures outcome == Response(200) ==>
        r == Ok && videos == UpsertAll(old(videos), MockVideos(CurrentTime(clock))) && lastPoll == Some(CurrentTime(clock))
      ensures outcome != Response(200) ==>
        r == Err(PollFailed(FetchError(outcome))) && videos == old(videos) && lastPoll == old(lastPoll)
    {
      var fetched := PerformFetch(clock, outcome);
      if fetched.Fetched? {
        lastPoll := Some(CurrentTime(clock));
        r := Ok;
      } else {
        r := Err(PollFailed(fetched.error));
      }
    }

    /** `clear_timer`: the timer service forgets `id`, if it was waiting. */
    method ClearTimer(id: TimerId)
      modifies this`scheduled
      ensures scheduled == old(scheduled) - {id}
    {
      scheduled := scheduled - {id};
    }

    /** `set_timer`: the timer service schedules a one-shot timer under a fresh handle. */
    method SetTimer(delaySeconds: U64) returns (id: TimerId)
      modifies this`scheduled, this`nextTimer
      ensures id == old(nextTimer) && nextTimer == id + 1
      ensures scheduled == old(scheduled)[id := delaySeconds]
    {
      id := nextTimer;
      scheduled := scheduled[id := delaySeconds];
      nextTimer := nextTimer + 1;
    }

    /** `set_poll_config`: an admin's call cancels the previous poll timer, stores the
        configuration, and schedules a new timer exactly when polling is enabled. */
    method SetPollConfig(caller: string, config: PollConfig) returns (r: CallResult)
      requires Valid()
      modifies this`pollConfig, this`pollTimer, this`scheduled, this`nextTimer
      ensures Valid()
      ensures !IsAdmin(caller, canisterId) ==>
        r == Err(AccessDenied) && pollConfig == old(pollConfig) && pollTimer == old(pollTimer)
        && scheduled == old(scheduled) && nextTimer == old(nextTimer)
      ensures IsAdmin(caller, canisterId) ==>
        r == Ok && GetPollConfig() == config
        && (old(pollTimer).Some? ==> old(pollTimer).value !in scheduled)
        && nextTimer == (if config.enabled then old(nextTimer) + 1 else old(nextTimer))
        && (config.enabled ==> pollTimer == Some(old(nextTimer)) && scheduled == map[old(nextTimer) := config.intervalSeconds])
        && (!config.enabled ==> pollTimer == None && scheduled == map[])
    {
      if !IsAdmin(caller, canisterId) {
        return Err(AccessDenied);
      }
      var previous := pollTimer;
      pollTimer := None;
      if previous.Some? {
        ClearTimer(previous.value);
      }
      assert scheduled == map[];
      pollConfig := config;
      if config.enabled {
        var id := SetTimer(config.intervalSeconds);
        pollTimer := Some(id);
      }
      r := Ok;
    }

    /** The timer service firing the waiting poll timer: the callback fetches and then records
        the time of the poll whether or not the fetch succeeded. The timer does not repeat. */
    method FirePollTimer(id: TimerId, clock: U64, outcome: HttpOutcome)
      requires Valid() && id in scheduled
      modifies this`scheduled, this`videos, this`lastPoll
      ensures Valid()
      ensures scheduled == old(scheduled) - {id} && scheduled == map[]
      ensures videos == if outcome == Response(200) then UpsertAll(old(videos), MockVideos(CurrentTime(clock))) else old(videos)
      ensures lastPoll == Some(CurrentTime(clock))
    {
      ClearTimer(id);
      var _ := PerformFetch(clock, outcome);
      lastPoll := Some(CurrentTime(clock));
    }
  }
}
