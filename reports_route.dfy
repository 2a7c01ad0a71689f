/**
 * `GET /api/reports` (src/app/api/reports/route.ts): the `where` filter built from the
 * `status`, `channel`, `from` and `to` query parameters, and the page it selects: the
 * caller's matching test results, newest first, at most 100 of them.
 */
module ReportsRoute {
  import opened Wrappers
  import opened Text
  import opened Store
  import opened Sorting

  /** `to` is widened to the last millisecond of that day, in UTC. */
  const EndOfDay: string := "T23:59:59.999Z"
  const PageSize: nat := 100

  /** The `testedAt` bounds, as the date texts handed to `new Date`. */
  datatype DateRange = DateRange(gte: Option<string>, lte: Option<string>)

  datatype Where = Where(userId: nat, status: Option<string>, channelContains: Option<string>, testedAt: Option<DateRange>)

  /** `searchParams.get(key)`. */
  function Param(params: map<string, string>, key: string): Option<string> {
    if key in params then Some(params[key]) else None
  }

  /** The filter the successive assignments build. */
  function WhereOf(userId: nat, params: map<string, string>): (w: Where)
    ensures w.userId == userId
    ensures w.status == OrNull(Param(params, "status"))
    ensures w.channelContains == OrNull(Param(params, "channel"))
    ensures w.testedAt.Some? <==> Truthy(Param(params, "from")) || Truthy(Param(params, "to"))
    ensures w.testedAt.Some? ==> w.testedAt.value.gte == OrNull(Param(params, "from"))
    ensures w.testedAt.Some? ==> (w.testedAt.value.lte.Some? <==> Truthy(Param(params, "to")))
    ensures w.testedAt.Some? && Truthy(Param(params, "to")) ==> w.testedAt.value.lte == Some(Param(params, "to").value + EndOfDay)
  {
    var from, to := Param(params, "from"), Param(params, "to");
    Where(userId, OrNull(Param(params, "status")), OrNull(Param(params, "channel")),
          if Truthy(from) || Truthy(to) then
            Some(DateRange(OrNull(from), if Truthy(to) then Some(to.value + EndOfDay) else None))
          else None)
  }

  /** The handler's construction of `where`, one conditional assignment at a time. */
  method BuildWhere(userId: nat, params: map<string, string>) returns (w: Where)
    ensures w == WhereOf(userId, params)
  {
    var status := Param(params, "status");
    var channel := Param(params, "channel");
    var from := Param(params, "from");
    var to := Param(params, "to");
    w := Where(userId, None, None, None);
    if Truthy(status) {
      w := w.(status := status);
    }
    if Truthy(channel) {
      w := w.(channelContains := channel);
    }
    if Truthy(from) || Truthy(to) {
      w := w.(testedAt := Some(DateRange(None, None)));
      if Truthy(from) {
        w := w.(testedAt := Some(w.testedAt.value.(gte := from)));
      }
      if Truthy(to) {
        w := w.(testedAt := Some(w.testedAt.value.(lte := Some(to.value + EndOfDay))));
      }
    }
  }

  /** Only the four named parameters are read: setting any other one changes nothing. */
  lemma OtherParamsIgnored(userId: nat, params: map<string, string>, key: string, value: string)
    requires key !in {"status", "channel", "from", "to"}
    ensures WhereOf(userId, params[key := value]) == WhereOf(userId, params)
  {
    assert Param(params[key := value], "status") == Param(params, "status");
    assert Param(params[key := value], "channel") == Param(params, "channel");
    assert Param(params[key := value], "from") == Param(params, "from");
    assert Param(params[key := value], "to") == Param(params, "to");
  }

  /** A test result with the time it was taken (milliseconds). */
  datatype ReportRow = ReportRow(result: TestResult, testedAt: int)

  /**
   * Whether a row satisfies the filter; `instant` stands for `new Date(...)`, giving the
   * millisecond a date text denotes. The channel test ignores ASCII case.
   */
  predicate Matches(w: Where, row: ReportRow, instant: string -> int) {
    && row.result.userId == w.userId
    && (w.status.Some? ==> row.result.status == w.status.value)
    && (w.channelContains.Some? ==>
          row.result.channelName.Some? && Contains(ToLower(row.result.channelName.value), ToLower(w.channelContains.value)))
    && (w.testedAt.Some? && w.testedAt.value.gte.Some? ==> row.testedAt >= instant(w.testedAt.value.gte.value))
    && (w.testedAt.Some? && w.testedAt.value.lte.Some? ==> row.testedAt <= instant(w.testedAt.value.lte.value))
  }

  function Filter(rows: seq<ReportRow>, w: Where, instant: string -> int): seq<ReportRow> {
    if rows == [] then []
    else (if Matches(w, rows[0], instant) then [rows[0]] else []) + Filter(rows[1..], w, instant)
  }

  lemma {:induction false} FilterExactly(rows: seq<ReportRow>, w: Where, instant: string -> int)
    ensures forall x :: x in Filter(rows, w, instant) <==> x in rows && Matches(w, x, instant)
  {
    if rows != [] {
      FilterExactly(rows[1..], w, instant);
      assert rows == [rows[0]] + rows[1..];
    }
  }

  /** Ascending order of this key is descending order of `testedAt`. */
  function NewestFirst(row: ReportRow): int {
    -row.testedAt
  }

  /** `findMany({ where, orderBy: { testedAt: "desc" }, take: 100 })`. */
  function Page(rows: seq<ReportRow>, w: Where, instant: string -> int): seq<ReportRow> {
    Prefix(SortBy(Filter(rows, w, instant), NewestFirst), PageSize)
  }

  /**
   * At most 100 rows, newest first, each one a row of the table that satisfies the filter;
   * the page is full unless fewer rows match, and no matching row left off it is newer
   * than a row on it.
   */
  lemma PageIsNewestMatches(rows: seq<ReportRow>, w: Where, instant: string -> int)
    ensures var page := Page(rows, w, instant);
      && |page| <= PageSize
      && (forall i, j :: 0 <= i < j < |page| ==> page[i].testedAt >= page[j].testedAt)
      && (forall x :: x in page ==> x in rows && Matches(w, x, instant))
    ensures var page, matching := Page(rows, w, instant), Filter(rows, w, instant);
      |page| == if |matching| < PageSize then |matching| else PageSize
    ensures var page := Page(rows, w, instant);
      forall x :: x in rows && Matches(w, x, instant) && x !in page ==>
        forall i :: 0 <= i < |page| ==> x.testedAt <= page[i].testedAt
  {
    var matching := Filter(rows, w, instant);
    var sorted := SortBy(matching, NewestFirst);
    var page := Page(rows, w, instant);
    FilterExactly(rows, w, instant);
    assert page == sorted[..|page|];
    forall x | x in page ensures x in rows && Matches(w, x, instant) {
      var i :| 0 <= i < |page| && page[i] == x;
      assert x == sorted[i];
      assert x in multiset(sorted);
    }
    forall i, j | 0 <= i < j < |page| ensures page[i].testedAt >= page[j].testedAt {
      assert page[i] == sorted[i] && page[j] == sorted[j];
      assert NewestFirst(sorted[i]) <= NewestFirst(sorted[j]);
    }
    forall x | x in rows && Matches(w, x, instant) && x !in page
      ensures forall i :: 0 <= i < |page| ==> x.testedAt <= page[i].testedAt
    {
      assert x in multiset(sorted);
      LeftOffIsOlder(sorted, |page|, x);
    }
  }

  /** In a newest-first list, an element outside the first `k` is no newer than any of them. */
  lemma LeftOffIsOlder(sorted: seq<ReportRow>, k: nat, x: ReportRow)
    requires SortedBy(sorted, NewestFirst) && k <= |sorted|
    requires x in sorted && x !in sorted[..k]
    ensures forall i :: 0 <= i < k ==> x.testedAt <= sorted[i].testedAt
  {
    var j :| 0 <= j < |sorted| && sorted[j] == x;
    forall i | 0 <= i < k ensures x.testedAt <= sorted[i].testedAt {
      assert NewestFirst(sorted[i]) <= NewestFirst(sorted[j]);
    }
  }

  /** Every row a filter keeps is the caller's: the `userId` constraint is always there. */
  lemma OnlyCallersRows(userId: nat, params: map<string, string>, rows: seq<ReportRow>, instant: string -> int)
    ensures forall x :: x in Page(rows, WhereOf(userId, params), instant) ==> x.result.userId == userId
  {
    PageIsNewestMatches(rows, WhereOf(userId, params), instant);
  }

  /** The `GET` handler over the stored rows: 401 without a caller. */
  method Get(caller: Option<Session>, params: map<string, string>, rows: seq<ReportRow>, instant: string -> int)
    returns (reply: Reply<seq<ReportRow>>)
    ensures caller.None? ==> reply == Err(401, "Unauthorized")
    ensures caller.Some? ==> reply == Ok(200, Page(rows, WhereOf(caller.value.userId, params), instant))
  {
    if caller.None? {
      return Err(401, "Unauthorized");
    }
    var w := BuildWhere(caller.value.userId, params);
    reply := Ok(200, Page(rows, w, instant));
  }
}
