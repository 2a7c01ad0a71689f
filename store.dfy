/**
 * The persisted records the server routes read and write, and an in-memory stand-in for
 * the database: one sequence per table, each create appending a record under a fresh id.
 * Record ids (cuids in the application) are natural numbers here; a request field or a
 * session that carries no id, or an empty one, is `None`.
 */
module Store {
  import opened Wrappers

  /** The signed-in caller as the auth session reports it. */
  datatype Session = Session(userId: nat, role: string)

  datatype User = User(id: nat, name: string, email: string, passwordHash: string, role: string)

  /** A row of the activity log, as `logActivity` in src/lib/activity.ts writes it. */
  datatype ActivityLog = ActivityLog(userId: nat, action: string, details: string)

  datatype Notification = Notification(userId: nat, title: string, message: string)

  datatype TestResult = TestResult(
    id: nat, userId: nat, url: string, channelName: Option<string>, playlistItemId: Option<nat>,
    status: string, duration: Option<int>)

  datatype PlaylistItem = PlaylistItem(url: string, channelName: Option<string>, sortOrder: int)

  datatype Playlist = Playlist(id: nat, userId: nat, items: seq<PlaylistItem>)

  /** One channel of a scheduled test that names its channels inline. */
  datatype ChannelEntry = ChannelEntry(url: string, channelName: Option<string>)

  /** The `channels` JSON column: null, a truthy value that is not an array, or an array of entries. */
  datatype Channels = NoChannels | NotAList | ChannelList(entries: seq<ChannelEntry>)

  datatype ScheduledTest = ScheduledTest(
    id: nat, userId: nat, name: string, playlistId: Option<nat>, channels: Channels,
    testDuration: int, scheduledAt: string, recurrence: string, status: string, lastRunAt: Option<int>)

  /** A route's HTTP response: a status and a JSON body, or a status and an error message. */
  datatype Reply<T> = Ok(status: nat, body: T) | Err(status: nat, error: string)

  /** The position of the first element satisfying `p`, if any: the lookup `findUnique`/`findFirst` does by a key. */
  function FirstWhere<T>(xs: seq<T>, p: T -> bool): (r: Option<nat>)
    ensures r.None? <==> forall i :: 0 <= i < |xs| ==> !p(xs[i])
    ensures r.Some? ==> r.value < |xs| && p(xs[r.value])
    ensures r.Some? ==> forall i :: 0 <= i < r.value ==> !p(xs[i])
  {
    if xs == [] then None
    else if p(xs[0]) then Some(0)
    else
      var r := FirstWhere(xs[1..], p);
      assert forall i :: 1 <= i < |xs| ==> xs[i] == xs[1..][i - 1];
      if r.None? then None else Some(r.value + 1)
  }

  /** The position of the user registered under `email`, if any (emails are unique). */
  function UserWithEmail(users: seq<User>, email: string): (r: Option<nat>)
    ensures r.None? <==> forall i :: 0 <= i < |users| ==> users[i].email != email
    ensures r.Some? ==> r.value < |users| && users[r.value].email == email
  {
    FirstWhere(users, (u: User) => u.email == email)
  }

  function PlaylistWithId(playlists: seq<Playlist>, id: nat): (r: Option<Playlist>)
    ensures r.None? <==> forall i :: 0 <= i < |playlists| ==> playlists[i].id != id
    ensures r.Some? ==> r.value in playlists && r.value.id == id
  {
    var i := FirstWhere(playlists, (p: Playlist) => p.id == id);
    if i.None? then None else Some(playlists[i.value])
  }

  /** The position of the scheduled test with this id, if any. */
  function ScheduleIndex(schedules: seq<ScheduledTest>, id: nat): (r: Option<nat>)
    ensures r.None? <==> forall i :: 0 <= i < |schedules| ==> schedules[i].id != id
    ensures r.Some? ==> r.value < |schedules| && schedules[r.value].id == id
  {
    FirstWhere(schedules, (t: ScheduledTest) => t.id == id)
  }

  class Database {
    var users: seq<User>
    var logs: seq<ActivityLog>
    var notifications: seq<Notification>
    var testResults: seq<TestResult>
    var playlists: seq<Playlist>
    var schedules: seq<ScheduledTest>
    /** Every id handed out so far is below this one. */
    var nextId: nat

    /** Ids are fresh and distinct in every table, and no two users share an email. */
    ghost predicate Valid()
      reads this
    {
      && (forall i :: 0 <= i < |users| ==> users[i].id < nextId)
      && (forall i, j :: 0 <= i < j < |users| ==> users[i].id != users[j].id && users[i].email != users[j].email)
      && (forall i :: 0 <= i < |testResults| ==> testResults[i].id < nextId)
      && (forall i, j :: 0 <= i < j < |testResults| ==> testResults[i].id != testResults[j].id)
      && (forall i :: 0 <= i < |schedules| ==> schedules[i].id < nextId)
      && (forall i, j :: 0 <= i < j < |schedules| ==> schedules[i].id != schedules[j].id)
    }

    constructor ()
      ensures Valid()
      ensures users == [] && logs == [] && notifications == [] && testResults == []
      ensures playlists == [] && schedules == [] && nextId == 0
    {
      users, logs, notifications, testResults, playlists, schedules := [], [], [], [], [], [];
      nextId := 0;
    }

    /** `prisma.user.create`: the email must not be registered yet (the column is unique). */
    method CreateUser(name: string, email: string, passwordHash: string, role: string) returns (u: User)
      requires Valid() && UserWithEmail(users, email).None?
      modifies this
      ensures Valid()
      ensures u == User(old(nextId), name, email, passwordHash, role) && users == old(users) + [u]
      ensures nextId == old(nextId) + 1
      ensures logs == old(logs) && notifications == old(notifications) && testResults == old(testResults)
      ensures playlists == old(playlists) && schedules == old(schedules)
    {
      u := User(nextId, name, email, passwordHash, role);
      users := users + [u];
      nextId := nextId + 1;
    }

    /** `logActivity`. */
    method Log(userId: nat, action: string, details: string)
      modifies this
      ensures logs == old(logs) + [ActivityLog(userId, action, details)]
      ensures users == old(users) && notifications == old(notifications) && testResults == old(testResults)
      ensures playlists == old(playlists) && schedules == old(schedules) && nextId == old(nextId)
    {
      logs := logs + [ActivityLog(userId, action, details)];
    }

    method Notify(userId: nat, title: string, message: string)
      modifies this
      ensures notifications == old(notifications) + [Notification(userId, title, message)]
      ensures users == old(users) && logs == old(logs) && testResults == old(testResults)
      ensures playlists == old(playlists) && schedules == old(schedules) && nextId == old(nextId)
    {
      notifications := notifications + [Notification(userId, title, message)];
    }

    /** `prisma.testResult.create`. */
    method CreateTestResult(userId: nat, url: string, channelName: Option<string>, playlistItemId: Option<nat>,
                            status: string, duration: Option<int>) returns (t: TestResult)
      requires Valid()
      modifies this
      ensures Valid()
      ensures t == TestResult(old(nextId), userId, url, channelName, playlistItemId, status, duration)
      ensures testResults == old(testResults) + [t] && nextId == old(nextId) + 1
      ensures users == old(users) && logs == old(logs) && notifications == old(notifications)
      ensures playlists == old(playlists) && schedules == old(schedules)
    {
      t := TestResult(nextId, userId, url, channelName, playlistItemId, status, duration);
      testResults := testResults + [t];
      nextId := nextId + 1;
    }

    /** `prisma.scheduledTest.create`; a new schedule has status SCHEDULED and has never run. */
    method CreateSchedule(userId: nat, name: string, playlistId: Option<nat>, channels: Channels,
                          testDuration: int, scheduledAt: string, recurrence: string) returns (s: ScheduledTest)
      requires Valid()
      modifies this
      ensures Valid()
      ensures s == ScheduledTest(old(nextId), userId, name, playlistId, channels, testDuration, scheduledAt,
                                 recurrence, "SCHEDULED", None)
      ensures schedules == old(schedules) + [s] && nextId == old(nextId) + 1
      ensures users == old(users) && logs == old(logs) && notifications == old(notifications)
      ensures testResults == old(testResults) && playlists == old(playlists)
    {
      s := ScheduledTest(nextId, userId, name, playlistId, channels, testDuration, scheduledAt, recurrence, "SCHEDULED", None);
      schedules := schedules + [s];
      nextId := nextId + 1;
    }

    /** `prisma.scheduledTest.update` of the schedule at position `k`: its status, and its last run time when given. */
    method UpdateSchedule(k: nat, status: string, lastRunAt: Option<int>)
      requires Valid() && k < |schedules|
      modifies this
      ensures Valid()
      ensures schedules == old(schedules)[k := old(schedules)[k].(status := status,
                lastRunAt := if lastRunAt.Some? then lastRunAt else old(schedules)[k].lastRunAt)]
      ensures users == old(users) && logs == old(logs) && notifications == old(notifications)
      ensures testResults == old(testResults) && playlists == old(playlists) && nextId == old(nextId)
    {
      var s := schedules[k];
      schedules := schedules[k := s.(status := status, lastRunAt := if lastRunAt.Some? then lastRunAt else s.lastRunAt)];
    }
  }
}
