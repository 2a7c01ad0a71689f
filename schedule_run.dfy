/**
 * `POST /api/schedule/run` (src/app/api/schedule/run/route.ts): runs a scheduled test now.
 * The schedule is marked RUNNING, its channels are chosen (the linked playlist's items in
 * `sortOrder`, else the inline channels), one PENDING test result is created per channel,
 * and the schedule ends COMPLETED (a one-off) or SCHEDULED again (a recurring one).
 */
module ScheduleRun {
  import opened Wrappers
  import opened Text
  import opened Store
  import opened Sorting

  /** The channels a run tests: a list, or an inline `channels` value that is not an array. */
  datatype Selection = Selected(entries: seq<ChannelEntry>) | Malformed

  /** One entry of the response's `tests`. */
  datatype TestEntry = TestEntry(testResultId: nat, url: string, channelName: Option<string>)

  datatype RunReply = RunReply(scheduleId: nat, scheduleName: string, testDuration: int, tests: seq<TestEntry>)

  /** How a run request is answered before any channel is examined. */
  datatype Admission = Refused(status: nat, error: string) | Admitted(k: nat)

  function SortOrderOf(item: PlaylistItem): int {
    item.sortOrder
  }

  /** `items.map(item => ({ url, channelName }))`. */
  function EntriesOf(items: seq<PlaylistItem>): (r: seq<ChannelEntry>)
    ensures |r| == |items|
    ensures forall i :: 0 <= i < |items| ==> r[i] == ChannelEntry(items[i].url, items[i].channelName)
  {
    if items == [] then [] else [ChannelEntry(items[0].url, items[0].channelName)] + EntriesOf(items[1..])
  }

  /** The guards: 401 without a caller, 400 without a schedule id, 404 for a schedule that is missing or someone else's. */
  function Admit(caller: Option<Session>, scheduleId: Option<nat>, schedules: seq<ScheduledTest>): (a: Admission)
    ensures a.Admitted? <==> caller.Some? && scheduleId.Some? && ScheduleIndex(schedules, scheduleId.value).Some?
                             && schedules[ScheduleIndex(schedules, scheduleId.value).value].userId == caller.value.userId
    ensures a.Admitted? ==> a.k < |schedules| && schedules[a.k].id == scheduleId.value
    ensures caller.None? ==> a == Refused(401, "Unauthorized")
    ensures caller.Some? && scheduleId.None? ==> a == Refused(400, "scheduleId is required")
    ensures caller.Some? && scheduleId.Some? && a.Refused? ==> a == Refused(404, "Scheduled test not found")
  {
    if caller.None? then Refused(401, "Unauthorized")
    else if scheduleId.None? then Refused(400, "scheduleId is required")
    else
      match ScheduleIndex(schedules, scheduleId.value)
      case None => Refused(404, "Scheduled test not found")
      case Some(k) =>
        if schedules[k].userId != caller.value.userId then Refused(404, "Scheduled test not found")
        else Admitted(k)
  }

  /** `channelsToTest`: the linked playlist's items in ascending `sortOrder`, else the inline channels, else none. */
  function ChannelsOf(s: ScheduledTest, playlists: seq<Playlist>): Selection {
    if s.playlistId.Some? && PlaylistWithId(playlists, s.playlistId.value).Some? then
      Selected(EntriesOf(SortBy(PlaylistWithId(playlists, s.playlistId.value).value.items, SortOrderOf)))
    else
      match s.channels
      case NoChannels => Selected([])
      case NotAList => Malformed
      case ChannelList(entries) => Selected(entries)
  }

  /**
   * A linked playlist's channels are its items, each once, in ascending `sortOrder`; the
   * inline channels are used only when the schedule has no playlist that still exists.
   */
  lemma PlaylistChannelsInOrder(s: ScheduledTest, playlists: seq<Playlist>)
    ensures s.playlistId.Some? && PlaylistWithId(playlists, s.playlistId.value).Some? ==>
      var items := PlaylistWithId(playlists, s.playlistId.value).value.items;
      exists ordered: seq<PlaylistItem> ::
        && ChannelsOf(s, playlists) == Selected(EntriesOf(ordered))
        && SortedBy(ordered, SortOrderOf)
        && multiset(ordered) == multiset(items)
    ensures (s.playlistId.None? || PlaylistWithId(playlists, s.playlistId.value).None?) && s.channels.ChannelList? ==>
      ChannelsOf(s, playlists) == Selected(s.channels.entries)
  {
    if s.playlistId.Some? && PlaylistWithId(playlists, s.playlistId.value).Some? {
      var ordered := SortBy(PlaylistWithId(playlists, s.playlistId.value).value.items, SortOrderOf);
      assert ChannelsOf(s, playlists) == Selected(EntriesOf(ordered));
    }
  }

  /** The results created for `channels`, ids counted up from `firstId`. */
  function ResultsFor(firstId: nat, userId: nat, channels: seq<ChannelEntry>, duration: int): (r: seq<TestResult>)
    ensures |r| == |channels|
    decreases |channels|
  {
    if channels == [] then []
    else
      var last := channels[|channels| - 1];
      ResultsFor(firstId, userId, channels[..|channels| - 1], duration)
        + [TestResult(firstId + |channels| - 1, userId, last.url, OrNull(last.channelName), None, "PENDING", Some(duration))]
  }

  /** One PENDING result per channel, in channel order, with the schedule's duration, no playlist item and consecutive fresh ids. */
  lemma {:induction false} ResultsPerChannel(firstId: nat, userId: nat, channels: seq<ChannelEntry>, duration: int, i: nat)
    requires i < |channels|
    ensures ResultsFor(firstId, userId, channels, duration)[i]
         == TestResult(firstId + i, userId, channels[i].url, OrNull(channels[i].channelName), None, "PENDING", Some(duration))
  {
    if i < |channels| - 1 {
      ResultsPerChannel(firstId, userId, channels[..|channels| - 1], duration, i);
    }
  }

  /** `createdResults.map(...)`. */
  function EntriesFor(results: seq<TestResult>): (r: seq<TestEntry>)
    ensures |r| == |results|
    ensures forall i :: 0 <= i < |results| ==> r[i] == TestEntry(results[i].id, results[i].url, results[i].channelName)
  {
    if results == [] then [] else [TestEntry(results[0].id, results[0].url, results[0].channelName)] + EntriesFor(results[1..])
  }

  /** The returned tests name each channel once, in channel order, under distinct result ids. */
  lemma TestsFollowChannels(firstId: nat, userId: nat, channels: seq<ChannelEntry>, duration: int)
    ensures var tests := EntriesFor(ResultsFor(firstId, userId, channels, duration));
      && |tests| == |channels|
      && (forall i :: 0 <= i < |channels| ==>
            tests[i] == TestEntry(firstId + i, channels[i].url, OrNull(channels[i].channelName)))
      && (forall i, j :: 0 <= i < j < |tests| ==> tests[i].testResultId != tests[j].testResultId)
  {
    var results := ResultsFor(firstId, userId, channels, duration);
    forall i | 0 <= i < |channels|
      ensures EntriesFor(results)[i] == TestEntry(firstId + i, channels[i].url, OrNull(channels[i].channelName))
    {
      ResultsPerChannel(firstId, userId, channels, duration, i);
    }
  }

  /** The status a run leaves: COMPLETED for a one-off schedule, SCHEDULED for a recurring one. */
  function FinalStatus(recurrence: string): (status: string)
    ensures status == "COMPLETED" <==> recurrence == "ONCE"
    ensures status == "SCHEDULED" <==> recurrence != "ONCE"
  {
    if recurrence == "ONCE" then "COMPLETED" else "SCHEDULED"
  }

  /** The detail of the RUN_SCHEDULE log entry; a template literal writes the count in decimal. */
  function RunDetails(name: string, count: nat): string {
    "Ran scheduled test: " + name + " (" + NatToString(count) + " channels)"
  }

  /** The detail names the schedule and a number that reads back as the count of results created. */
  lemma RunDetailsCount(name: string, count: nat)
    ensures exists digits :: RunDetails(name, count) == "Ran scheduled test: " + name + " (" + digits + " channels)"
                             && ParseInt(digits) == Some(count as int)
  {
    ParseIntToString(count);
    assert IntToString(count) == NatToString(count);
  }

  /** `Promise.all(channelsToTest.map(create))`: one PENDING result per channel. */
  method CreateResults(db: Database, userId: nat, channels: seq<ChannelEntry>, duration: int) returns (created: seq<TestResult>)
    requires db.Valid()
    modifies db
    ensures db.Valid()
    ensures created == ResultsFor(old(db.nextId), userId, channels, duration)
    ensures db.testResults == old(db.testResults) + created && db.nextId == old(db.nextId) + |channels|
    ensures db.users == old(db.users) && db.logs == old(db.logs) && db.notifications == old(db.notifications)
    ensures db.playlists == old(db.playlists) && db.schedules == old(db.schedules)
  {
    created := [];
    var i := 0;
    while i < |channels|
      invariant 0 <= i <= |channels| && db.Valid()
      invariant created == ResultsFor(old(db.nextId), userId, channels[..i], duration)
      invariant db.testResults == old(db.testResults) + created && db.nextId == old(db.nextId) + i
      invariant db.users == old(db.users) && db.logs == old(db.logs) && db.notifications == old(db.notifications)
      invariant db.playlists == old(db.playlists) && db.schedules == old(db.schedules)
    {
      assert channels[..i + 1][..i] == channels[..i];
      var channel := channels[i];
      var t := db.CreateTestResult(userId, channel.url, OrNull(channel.channelName), None, "PENDING", Some(duration));
      created := created + [t];
      i := i + 1;
    }
    assert channels[..i] == channels;
  }

  /** The `POST` handler; `now` is the time the run records as `lastRunAt`. */
  method Run(db: Database, caller: Option<Session>, scheduleId: Option<nat>, now: int) returns (reply: Reply<RunReply>)
    requires db.Valid()
    modifies db
    ensures db.Valid()
    ensures var a := Admit(caller, scheduleId, old(db.schedules));
      a.Refused? ==> reply == Err(a.status, a.error) && unchanged(db)
    ensures var a := Admit(caller, scheduleId, old(db.schedules));
      a.Admitted? ==>
        var s := old(db.schedules)[a.k];
        match ChannelsOf(s, old(db.playlists))
        case Malformed =>
          // the non-array value has no `map`: the handler throws with the schedule left RUNNING
          && reply == Err(500, "Internal Server Error")
          && db.schedules == old(db.schedules)[a.k := s.(status := "RUNNING")]
          && db.testResults == old(db.testResults) && db.logs == old(db.logs)
        case Selected(channels) =>
          if channels == [] then
            && reply == Err(400, "No channels to test")
            && db.schedules == old(db.schedules)[a.k := s.(status := "COMPLETED", lastRunAt := Some(now))]
            && db.testResults == old(db.testResults) && db.logs == old(db.logs)
          else
            var results := ResultsFor(old(db.nextId), caller.value.userId, channels, s.testDuration);
            && reply == Ok(200, RunReply(s.id, s.name, s.testDuration, EntriesFor(results)))
            && db.testResults == old(db.testResults) + results
            && db.schedules == old(db.schedules)[a.k := s.(status := FinalStatus(s.recurrence), lastRunAt := Some(now))]
            && db.logs == old(db.logs) + [ActivityLog(caller.value.userId, "RUN_SCHEDULE", RunDetails(s.name, |channels|))]
    ensures db.users == old(db.users) && db.notifications == old(db.notifications) && db.playlists == old(db.playlists)
  {
    var a := Admit(caller, scheduleId, db.schedules);
    if a.Refused? {
      return Err(a.status, a.error);
    }
    reply := RunAdmitted(db, a.k, caller.value.userId, now);
  }

  /** The handler after the guards, for the schedule at position `k` run by `userId`. */
  method RunAdmitted(db: Database, k: nat, userId: nat, now: int) returns (reply: Reply<RunReply>)
    requires db.Valid() && k < |db.schedules|
    modifies db
    ensures db.Valid()
    ensures var s := old(db.schedules)[k];
      match ChannelsOf(s, old(db.playlists))
      case Malformed =>
        && reply == Err(500, "Internal Server Error")
        && db.schedules == old(db.schedules)[k := s.(status := "RUNNING")]
        && db.testResults == old(db.testResults) && db.logs == old(db.logs)
      case Selected(channels) =>
        if channels == [] then
          && reply == Err(400, "No channels to test")
          && db.schedules == old(db.schedules)[k := s.(status := "COMPLETED", lastRunAt := Some(now))]
          && db.testResults == old(db.testResults) && db.logs == old(db.logs)
        else
          var results := ResultsFor(old(db.nextId), userId, channels, s.testDuration);
          && reply == Ok(200, RunReply(s.id, s.name, s.testDuration, EntriesFor(results)))
          && db.testResults == old(db.testResults) + results
          && db.schedules == old(db.schedules)[k := s.(status := FinalStatus(s.recurrence), lastRunAt := Some(now))]
          && db.logs == old(db.logs) + [ActivityLog(userId, "RUN_SCHEDULE", RunDetails(s.name, |channels|))]
    ensures db.users == old(db.users) && db.notifications == old(db.notifications) && db.playlists == old(db.playlists)
  {
    var s := db.schedules[k];
    db.UpdateSchedule(k, "RUNNING", None);
    var selection := ChannelsOf(s, db.playlists);
    if selection.Malformed? {
      return Err(500, "Internal Server Error");
    }
    var channels := selection.entries;
    if |channels| == 0 {
      db.UpdateSchedule(k, "COMPLETED", Some(now));
      return Err(400, "No channels to test");
    }
    reply := TestChannels(db, k, userId, now, s, channels);
  }

  /** Creating the results of a non-empty channel list, then the final status, the log entry and the reply. */
  method TestChannels(db: Database, k: nat, userId: nat, now: int, s: ScheduledTest, channels: seq<ChannelEntry>)
    returns (reply: Reply<RunReply>)
    requires db.Valid() && k < |db.schedules| && channels != []
    requires db.schedules[k] == s.(status := "RUNNING")
    modifies db
    ensures db.Valid()
    ensures var results := ResultsFor(old(db.nextId), userId, channels, s.testDuration);
      && reply == Ok(200, RunReply(s.id, s.name, s.testDuration, EntriesFor(results)))
      && db.testResults == old(db.testResults) + results
      && db.schedules == old(db.schedules)[k := s.(status := FinalStatus(s.recurrence), lastRunAt := Some(now))]
      && db.logs == old(db.logs) + [ActivityLog(userId, "RUN_SCHEDULE", RunDetails(s.name, |channels|))]
    ensures db.users == old(db.users) && db.notifications == old(db.notifications) && db.playlists == old(db.playlists)
  {
    var created := CreateResults(db, userId, channels, s.testDuration);
    if s.recurrence == "ONCE" {
      db.UpdateSchedule(k, "COMPLETED", Some(now));
    } else {
      db.UpdateSchedule(k, "SCHEDULED", Some(now));
    }
    db.Log(userId, "RUN_SCHEDULE", RunDetails(s.name, |created|));
    reply := Ok(200, RunReply(s.id, s.name, s.testDuration, EntriesFor(created)));
  }
}
