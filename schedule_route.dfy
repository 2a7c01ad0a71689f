/**
 * `POST /api/schedule` (src/app/api/schedule/route.ts): the guard chain that validates a new
 * scheduled test, the defaults and normalisation applied to it, and its creation.
 */
module ScheduleRoute {
  import opened Wrappers
  import opened Text
  import opened Store

  const DefaultTestDuration: int := 30
  const DefaultRecurrence: string := "ONCE"

  /** The JSON body; `None` is an absent field (for `testDuration` and `recurrence`, `undefined`, which takes the default). */
  datatype ScheduleBody = ScheduleBody(
    name: Option<string>, playlistId: Option<nat>, channels: Channels,
    testDuration: Option<int>, scheduledAt: Option<string>, recurrence: Option<string>)

  /** What is stored, before the store gives it an id. */
  datatype Draft = Draft(
    userId: nat, name: string, playlistId: Option<nat>, channels: Channels,
    testDuration: int, scheduledAt: string, recurrence: string)

  /** `!name || !name.trim()` fails. */
  predicate NameGiven(name: Option<string>) {
    name.Some? && Strip(name.value) != []
  }

  /** A playlist, or else a non-empty array of channels. */
  predicate ChannelsGiven(body: ScheduleBody) {
    body.playlistId.Some? || (body.channels.ChannelList? && |body.channels.entries| > 0)
  }

  /** No playlist is named, or the named one exists and belongs to the caller. */
  predicate PlaylistOwned(body: ScheduleBody, userId: nat, playlists: seq<Playlist>) {
    body.playlistId.Some? ==>
      var p := PlaylistWithId(playlists, body.playlistId.value);
      p.Some? && p.value.userId == userId
  }

  /**
   * The guards of `POST`, in their order: caller (401), name (400), date (400), channels
   * (400), playlist ownership (404); when all pass, the normalised record to store.
   */
  function PostDecision(caller: Option<Session>, body: ScheduleBody, playlists: seq<Playlist>): (r: Reply<Draft>)
    ensures caller.None? ==> r == Err(401, "Unauthorized")
    ensures caller.Some? && !NameGiven(body.name) ==> r == Err(400, "Name is required")
    ensures caller.Some? && NameGiven(body.name) && !Truthy(body.scheduledAt)
      ==> r == Err(400, "Scheduled date is required")
    ensures caller.Some? && NameGiven(body.name) && Truthy(body.scheduledAt) && !ChannelsGiven(body)
      ==> r == Err(400, "Either a playlist or at least one channel must be provided")
    ensures caller.Some? && NameGiven(body.name) && Truthy(body.scheduledAt) && ChannelsGiven(body)
            && !PlaylistOwned(body, caller.value.userId, playlists)
      ==> r == Err(404, "Playlist not found")
    ensures r.Ok? <==> caller.Some? && NameGiven(body.name) && Truthy(body.scheduledAt) && ChannelsGiven(body)
                       && PlaylistOwned(body, caller.value.userId, playlists)
    ensures r.Ok? ==> r.status == 201 && r.body.userId == caller.value.userId
    ensures r.Ok? ==> r.body.name == Strip(body.name.value) && r.body.name != []
    ensures r.Ok? ==> r.body.playlistId == body.playlistId && r.body.channels == body.channels
    ensures r.Ok? ==> r.body.scheduledAt == body.scheduledAt.value && r.body.scheduledAt != []
    ensures r.Ok? ==> r.body.testDuration == body.testDuration.GetOr(DefaultTestDuration)
    ensures r.Ok? ==> r.body.recurrence == body.recurrence.GetOr(DefaultRecurrence)
  {
    if caller.None? then Err(401, "Unauthorized")
    else if body.name.None? || Strip(body.name.value) == [] then Err(400, "Name is required")
    else if !Truthy(body.scheduledAt) then Err(400, "Scheduled date is required")
    else if body.playlistId.None? && (!body.channels.ChannelList? || |body.channels.entries| == 0) then
      Err(400, "Either a playlist or at least one channel must be provided")
    else if body.playlistId.Some? && (PlaylistWithId(playlists, body.playlistId.value).None?
            || PlaylistWithId(playlists, body.playlistId.value).value.userId != caller.value.userId) then
      Err(404, "Playlist not found")
    else
      Ok(201, Draft(caller.value.userId, Strip(body.name.value), body.playlistId, body.channels,
                    body.testDuration.GetOr(DefaultTestDuration), body.scheduledAt.value,
                    body.recurrence.GetOr(DefaultRecurrence)))
  }

  /** With a playlist named, the channels field is never examined: any value of it gets the same verdict. */
  lemma ChannelsIgnoredWithPlaylist(caller: Option<Session>, body: ScheduleBody, playlists: seq<Playlist>, other: Channels)
    requires body.playlistId.Some?
    ensures var a := PostDecision(caller, body, playlists);
      var b := PostDecision(caller, body.(channels := other), playlists);
      a.Ok? == b.Ok? && (a.Err? ==> a == b)
  {
  }

  /** Without a playlist, an empty channel array is refused like a missing one, whatever else the body holds. */
  lemma EmptyChannelsRefused(caller: Session, body: ScheduleBody, playlists: seq<Playlist>)
    requires body.playlistId.None? && body.channels == ChannelList([])
    ensures PostDecision(Some(caller), body, playlists).Err?
    ensures NameGiven(body.name) && Truthy(body.scheduledAt) ==>
      PostDecision(Some(caller), body, playlists).status == 400
  {
  }

  /** A name that is only whitespace is refused even when it is a non-empty string. */
  lemma BlankNameRefused(caller: Session, body: ScheduleBody, playlists: seq<Playlist>)
    requires body.name.Some? && IsBlank(body.name.value)
    ensures PostDecision(Some(caller), body, playlists) == Err(400, "Name is required")
  {
    StripEmptyIffBlank(body.name.value);
  }

  /** The `POST` handler: on success one new schedule and one CREATE_SCHEDULE log entry; on any refusal nothing changes. */
  method Post(db: Database, caller: Option<Session>, body: ScheduleBody) returns (reply: Reply<ScheduledTest>)
    requires db.Valid()
    modifies db
    ensures db.Valid()
    ensures var d := PostDecision(caller, body, old(db.playlists));
      && (d.Err? ==> reply == Err(d.status, d.error) && unchanged(db))
      && (d.Ok? ==>
            var s := d.body;
            && reply == Ok(201, ScheduledTest(old(db.nextId), s.userId, s.name, s.playlistId, s.channels,
                                              s.testDuration, s.scheduledAt, s.recurrence, "SCHEDULED", None))
            && db.schedules == old(db.schedules) + [reply.body]
            && db.logs == old(db.logs) + [ActivityLog(s.userId, "CREATE_SCHEDULE", "Created scheduled test: " + s.name)]
            && db.users == old(db.users) && db.notifications == old(db.notifications)
            && db.testResults == old(db.testResults) && db.playlists == old(db.playlists))
  {
    if caller.None? {
      return Err(401, "Unauthorized");
    }
    var userId := caller.value.userId;
    if body.name.None? || Strip(body.name.value) == [] {
      return Err(400, "Name is required");
    }
    if !Truthy(body.scheduledAt) {
      return Err(400, "Scheduled date is required");
    }
    if body.playlistId.None? && (!body.channels.ChannelList? || |body.channels.entries| == 0) {
      return Err(400, "Either a playlist or at least one channel must be provided");
    }
    if body.playlistId.Some? {
      var playlist := PlaylistWithId(db.playlists, body.playlistId.value);
      if playlist.None? || playlist.value.userId != userId {
        return Err(404, "Playlist not found");
      }
    }
    var name := Strip(body.name.value);
    var s := db.CreateSchedule(userId, name, body.playlistId, body.channels,
                               body.testDuration.GetOr(DefaultTestDuration), body.scheduledAt.value,
                               body.recurrence.GetOr(DefaultRecurrence));
    db.Log(userId, "CREATE_SCHEDULE", "Created scheduled test: " + name);
    reply := Ok(201, s);
  }
}
