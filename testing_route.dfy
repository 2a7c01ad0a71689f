/**
 * The `/api/testing` route (src/app/api/testing/route.ts): `GET` turns the per-status
 * counts of the caller's test results into the dashboard statistics, and `POST` records
 * a new pending test.
 */
module TestingRoute {
  import opened Wrappers
  import opened Text
  import opened Store

  /** One row of the `groupBy` on status: a status and how many of the caller's results have it. */
  datatype GroupRow = GroupRow(status: string, count: nat)

  datatype Stats = Stats(total: nat, passed: nat, failed: nat, pending: nat)

  /** `countMap` after the rows so far: each row sets its status, a later row overwriting an earlier one. */
  function CountMapOf(rows: seq<GroupRow>): map<string, nat> {
    if rows == [] then map[]
    else
      var last := rows[|rows| - 1];
      CountMapOf(rows[..|rows| - 1])[last.status := last.count]
  }

  /** The loop filling `countMap`. */
  method CountStatuses(rows: seq<GroupRow>) returns (countMap: map<string, nat>)
    ensures countMap == CountMapOf(rows)
  {
    countMap := map[];
    var i := 0;
    while i < |rows|
      invariant 0 <= i <= |rows|
      invariant countMap == CountMapOf(rows[..i])
    {
      assert rows[..i + 1][..i] == rows[..i];
      countMap := countMap[rows[i].status := rows[i].count];
      i := i + 1;
    }
    assert rows[..i] == rows;
  }

  /** `countMap[status] || 0`: an absent status counts 0. */
  function CountOf(countMap: map<string, nat>, status: string): nat {
    if status in countMap then countMap[status] else 0
  }

  /** The four figures derived from `countMap`. */
  function StatsOf(countMap: map<string, nat>): (st: Stats)
    ensures st.total == st.passed + st.failed + st.pending
  {
    var passed := CountOf(countMap, "COMPLETED");
    var failed := CountOf(countMap, "FAILED");
    var pending := CountOf(countMap, "PENDING") + CountOf(countMap, "RUNNING");
    Stats(passed + failed + pending, passed, failed, pending)
  }

  /** The statistics part of `GET`: 401 without a signed-in caller. */
  method GetStats(caller: Option<Session>, rows: seq<GroupRow>) returns (reply: Reply<Stats>)
    ensures caller.None? ==> reply == Err(401, "Unauthorized")
    ensures caller.Some? ==> reply == Ok(200, StatsOf(CountMapOf(rows)))
  {
    if caller.None? {
      return Err(401, "Unauthorized");
    }
    var countMap := CountStatuses(rows);
    var passed := if "COMPLETED" in countMap then countMap["COMPLETED"] else 0;
    var failed := if "FAILED" in countMap then countMap["FAILED"] else 0;
    var pending := (if "PENDING" in countMap then countMap["PENDING"] else 0)
                 + (if "RUNNING" in countMap then countMap["RUNNING"] else 0);
    reply := Ok(200, Stats(passed + failed + pending, passed, failed, pending));
  }

  /** The position of the last row for `status`, if any. */
  function LastRowFor(rows: seq<GroupRow>, status: string): (r: Option<nat>)
    ensures r.None? ==> forall k :: 0 <= k < |rows| ==> rows[k].status != status
    ensures r.Some? ==> r.value < |rows| && rows[r.value].status == status
    ensures r.Some? ==> forall j :: r.value < j < |rows| ==> rows[j].status != status
  {
    if rows == [] then None
    else if rows[|rows| - 1].status == status then Some(|rows| - 1)
    else
      assert forall k :: 0 <= k < |rows| - 1 ==> rows[..|rows| - 1][k] == rows[k];
      LastRowFor(rows[..|rows| - 1], status)
  }

  /** A status is in `countMap` exactly when some row has it, and then it holds the count of the last such row. */
  lemma {:induction false} LastRowWins(rows: seq<GroupRow>, status: string)
    ensures status in CountMapOf(rows) <==> LastRowFor(rows, status).Some?
    ensures status in CountMapOf(rows) ==> CountMapOf(rows)[status] == rows[LastRowFor(rows, status).value].count
  {
    if rows != [] {
      var front := rows[..|rows| - 1];
      LastRowWins(front, status);
      if rows[|rows| - 1].status != status {
        assert LastRowFor(rows, status) == LastRowFor(front, status);
        if LastRowFor(front, status).Some? {
          assert rows[LastRowFor(front, status).value] == front[LastRowFor(front, status).value];
        }
      }
    }
  }

  /** A status other than the four counted ones changes no figure. */
  lemma OtherStatusesIgnored(countMap: map<string, nat>, status: string, count: nat)
    requires status !in {"COMPLETED", "FAILED", "PENDING", "RUNNING"}
    ensures StatsOf(countMap[status := count]) == StatsOf(countMap)
  {
  }

  /** How many of the statuses equal `s`. */
  function Occurrences(statuses: seq<string>, s: string): nat {
    if statuses == [] then 0
    else Occurrences(statuses[..|statuses| - 1], s) + if statuses[|statuses| - 1] == s then 1 else 0
  }

  /** The rows are the `groupBy` of the results' statuses: one row per status present, counting it. */
  predicate GroupedFrom(rows: seq<GroupRow>, statuses: seq<string>) {
    && (forall i, j :: 0 <= i < j < |rows| ==> rows[i].status != rows[j].status)
    && (forall i :: 0 <= i < |rows| ==> rows[i].count == Occurrences(statuses, rows[i].status))
    && (forall k :: 0 <= k < |statuses| ==> exists i :: 0 <= i < |rows| && rows[i].status == statuses[k])
  }

  /** From the grouped rows, each status's figure is the number of results that have it. */
  lemma CountIsOccurrences(rows: seq<GroupRow>, statuses: seq<string>, s: string)
    requires GroupedFrom(rows, statuses)
    ensures CountOf(CountMapOf(rows), s) == Occurrences(statuses, s)
  {
    LastRowWins(rows, s);
    var k := LastRowFor(rows, s);
    if k.None? {
      OccurrencesOfAbsent(statuses, s);
    }
  }

  lemma {:induction false} OccurrencesOfAbsent(statuses: seq<string>, s: string)
    requires forall k :: 0 <= k < |statuses| ==> statuses[k] != s
    ensures Occurrences(statuses, s) == 0
  {
    if statuses != [] {
      OccurrencesOfAbsent(statuses[..|statuses| - 1], s);
    }
  }

  /**
   * With the rows grouped from the caller's results: passed counts the COMPLETED results,
   * failed the FAILED ones, pending the PENDING and RUNNING ones, and total their sum.
   */
  lemma StatsCountResults(rows: seq<GroupRow>, statuses: seq<string>)
    requires GroupedFrom(rows, statuses)
    ensures var st := StatsOf(CountMapOf(rows));
      && st.passed == Occurrences(statuses, "COMPLETED")
      && st.failed == Occurrences(statuses, "FAILED")
      && st.pending == Occurrences(statuses, "PENDING") + Occurrences(statuses, "RUNNING")
      && st.total == st.passed + st.failed + st.pending
  {
    CountIsOccurrences(rows, statuses, "COMPLETED");
    CountIsOccurrences(rows, statuses, "FAILED");
    CountIsOccurrences(rows, statuses, "PENDING");
    CountIsOccurrences(rows, statuses, "RUNNING");
  }

  /** The JSON body of `POST`. */
  datatype TestBody = TestBody(url: Option<string>, channelName: Option<string>, playlistItemId: Option<nat>)

  /** The record `POST` creates, before the store gives it an id. */
  datatype Draft = Draft(userId: nat, url: string, channelName: Option<string>, playlistItemId: Option<nat>)

  /** The guards of `POST`: 401 without a caller, 400 without a url; otherwise what to create. */
  function PostDecision(caller: Option<Session>, body: TestBody): (r: Reply<Draft>)
    ensures r.Ok? <==> caller.Some? && Truthy(body.url)
    ensures r.Err? ==> r.status == (if caller.None? then 401 else 400)
    ensures r.Ok? ==> r.body.userId == caller.value.userId && r.body.url == body.url.value
    ensures r.Ok? ==> (r.body.channelName.Some? <==> Truthy(body.channelName))
    ensures r.Ok? ==> r.body.channelName == OrNull(body.channelName) && r.body.playlistItemId == body.playlistItemId
  {
    if caller.None? then Err(401, "Unauthorized")
    else if !Truthy(body.url) then Err(400, "URL is required")
    else Ok(200, Draft(caller.value.userId, body.url.value, OrNull(body.channelName), body.playlistItemId))
  }

  /** What the START_TEST log entry names: the channel when it has a name, else the url. */
  function StartDetails(channelName: Option<string>, url: string): string {
    "Started test for " + if Truthy(channelName) then channelName.value else url
  }

  /** The `POST` handler: a new PENDING result and a START_TEST log entry, or nothing at all. */
  method Post(db: Database, caller: Option<Session>, body: TestBody) returns (reply: Reply<TestResult>)
    requires db.Valid()
    modifies db
    ensures db.Valid()
    ensures var d := PostDecision(caller, body);
      && (d.Err? ==> reply == Err(d.status, d.error) && unchanged(db))
      && (d.Ok? ==>
            && reply.Ok? && reply.status == 200
            && reply.body == TestResult(old(db.nextId), d.body.userId, d.body.url, d.body.channelName,
                                        d.body.playlistItemId, "PENDING", None)
            && db.testResults == old(db.testResults) + [reply.body]
            && db.logs == old(db.logs) + [ActivityLog(d.body.userId, "START_TEST", StartDetails(body.channelName, d.body.url))]
            && db.users == old(db.users) && db.notifications == old(db.notifications)
            && db.playlists == old(db.playlists) && db.schedules == old(db.schedules))
  {
    if caller.None? {
      return Err(401, "Unauthorized");
    }
    if !Truthy(body.url) {
      return Err(400, "URL is required");
    }
    var userId := caller.value.userId;
    var url := body.url.value;
    var t := db.CreateTestResult(userId, url, OrNull(body.channelName), body.playlistItemId, "PENDING", None);
    db.Log(userId, "START_TEST", StartDetails(body.channelName, url));
    reply := Ok(200, t);
  }
}
