# HLS Stream Analyzer — a verified model of its core

This project models, in Dafny, two parts of the HLS Stream Analyzer.

- **The offline Python analyzer.** It downloads an HLS playlist and one media segment and runs five detectors on the segment: freeze, black frame, mosaic, audio/video sync and frame loss. It also measures latency, jitter, bitrate and buffer health from the playlist. Decoding and pixel arithmetic are inputs. A stream is its packets' optional presentation timestamps, its time base and its nominal rate. A frame is its grey-level rows, its mean luma, its mean edge strength and its correlation with the previous frame.
- **The web application's server-side decision logic.** This covers:
  - test start and the status statistics;
  - schedule creation and scheduled runs;
  - self-registration and user administration;
  - the reports filter;
  - the page guard (middleware) and the sidebar navigation;
  - the dashboard's CPU and memory figures.

  The database is a class `Store.Database` whose tables are sequences. Each route is a method that changes the tables and states the whole new state. Each route's guard chain is a pure function that states every branch in the order the handler tests them.

How the model is built:
- Every loop of the source is a `method` with a `while` loop. Each method is proved equal to a specification function. The properties the source promises are lemmas about those functions.
- Times, rates and ratios are `real`. Identifiers are natural numbers handed out by the store.
- JavaScript truthiness of an optional string is `Text.Truthy`, and `x || null` is `Text.OrNull`.

Modules:
- One module per source file: `Metrics`, `Freeze`, `BlackFrame`, `Mosaic`, `AvSync`, `Hls`, `AnalyzerMain`, `TestingRoute`, `ScheduleRoute`, `ScheduleRun`, `RegisterRoute`, `UsersRoute`, `Middleware`, `Sidebar`, `DashboardStats` and `ReportsRoute`.
- Shared modules:
  - `Wrappers`: `Option` and `Prefix`.
  - `Text`: Python and JavaScript string operations and number parsing.
  - `Numeric`: sums and means.
  - `Sorting`: an insertion sort by an integer key.
  - `Media`: decoded streams and frames, the frame-rate default and presentation times.
  - `Store`: the records and the database.

## Model

| member | source | states |
|---|---|---|
| Media.Fps | python-analyzer/analyzer/metrics.py:13 | the frame rate is the stream's average rate when it is present and non-zero, else 30; always positive |
| Media.TimedLength | python-analyzer/analyzer/metrics.py:17-20 | the presentation times collected are exactly as many as the packets that carry a PTS |
| Media.TimedSkipsUntimed | python-analyzer/analyzer/metrics.py:18 | a packet without a PTS contributes no presentation time |
| Media.FrameTimeIncreasing | python-analyzer/analyzer/blackframe.py:21 | `frame_count / fps` strictly increases with the decode position |
| Metrics.GapLossBounds | python-analyzer/analyzer/metrics.py:22-26 | a gap adds nothing iff it is at most 1.5 intervals (negative gaps included); otherwise it adds max(int(gap/interval)-1, 1) >= 1, and exactly 1 strictly between 1.5 and 3 intervals |
| Metrics.LossReport | python-analyzer/analyzer/metrics.py:34-39 | detected iff dropped > 0; dropRate is dropped*100/max(total,1), so it is 0 for empty input and never divides by zero |
| Metrics.AnalyzeMetrics | python-analyzer/analyzer/metrics.py:4-39 | the packet loop computes the loss result of the stream's timed packets; no stream gives zero counts |
| Metrics.UntimedPacketsIgnored | python-analyzer/analyzer/metrics.py:17-28 | removing a packet without a PTS changes no result: it neither counts nor resets `prev_pts` |
| Metrics.TotalCountsTimedPackets | python-analyzer/analyzer/metrics.py:18-20 | `total` is the number of packets whose PTS is present |
| Metrics.DroppedMonotone | python-analyzer/analyzer/metrics.py:26 | the dropped estimate of a prefix of the times never exceeds that of the whole |
| Metrics.DroppedShiftInvariant | python-analyzer/analyzer/metrics.py:8-28 | only gaps count: shifting all times changes nothing, so the first timed packet adds no loss |
| Metrics.RegularStreamNoLoss | python-analyzer/analyzer/metrics.py:23-24 | when every gap is within 1.5 intervals nothing is dropped |
| Metrics.LateGapsBoundLoss | python-analyzer/analyzer/metrics.py:24-26 | every gap beyond 1.5 intervals adds at least one frame |
| Freeze.Report | python-analyzer/analyzer/freeze.py:51-55 | count is the number of segments, detected iff count > 0, timestamps exactly the first min(count, 20) segments |
| Freeze.DetectFreeze | python-analyzer/analyzer/freeze.py:5-55 | the decode loop computes the freeze result of the state machine over the frames |
| Freeze.ScanKeepsInvariant | python-analyzer/analyzer/freeze.py:18-45 | after every frame the segments are ordered and end by the current frame, and an open freeze starts after the last segment |
| Freeze.SegmentsOrdered | python-analyzer/analyzer/freeze.py:32-45 | reported segments are in time order and never overlap |
| Freeze.SegmentsLongEnough | python-analyzer/analyzer/freeze.py:35-41 | every reported segment lasted at least `min_duration` and its duration is end minus start |
| Freeze.StepStart | python-analyzer/analyzer/freeze.py:30-32 | a similar frame opens a freeze at its own time only when none is open; an open freeze keeps its start |
| Freeze.StepEmits | python-analyzer/analyzer/freeze.py:33-42 | a segment is emitted only by a dissimilar frame closing an open freeze that lasted long enough; any closing frame resets the start |
| Freeze.UncomparedFrameIgnored | python-analyzer/analyzer/freeze.py:21-22 | the first frame, and a frame whose shape differs from its predecessor's, leave the state unchanged |
| Freeze.ScanPrefix | python-analyzer/analyzer/freeze.py:18-45 | the state after n frames does not depend on later frames |
| Freeze.OpenFreezeUnreported | python-analyzer/analyzer/freeze.py:18-55 | a freeze still open when the frames run out is never reported |
| BlackFrame.Report | python-analyzer/analyzer/blackframe.py:34-38 | count is the number of records, detected iff count > 0, timestamps exactly the first min(count, 20) |
| BlackFrame.DetectBlackFrame | python-analyzer/analyzer/blackframe.py:5-38 | the decode loop computes the black-frame result of the frames |
| BlackFrame.RecordsFaithful | python-analyzer/analyzer/blackframe.py:16-28 | each record is a frame below the threshold at its decode position, time index/fps and mean; positions strictly increase; as many records as black frames |
| BlackFrame.BlackFramesRecorded | python-analyzer/analyzer/blackframe.py:20-26 | every frame below the threshold is recorded |
| BlackFrame.RecordedIffBlack | python-analyzer/analyzer/blackframe.py:20-36 | a frame is recorded iff its mean is strictly below the threshold; count is not capped |
| Mosaic.BlockScore | python-analyzer/analyzer/mosaic.py:31-34 | since y + bs < h, `min(y+bs, h-1)` is y+bs: each score compares adjacent rows y+bs-1 and y+bs |
| Mosaic.ScoreSize | python-analyzer/analyzer/mosaic.py:29-35 | the row loop for one block size computes that size's scores, none unless h >= bs and w >= bs |
| Mosaic.ScoreBlocks | python-analyzer/analyzer/mosaic.py:27-35 | the block-size loop computes the scores of 8 then 16 |
| Mosaic.DetectMosaic | python-analyzer/analyzer/mosaic.py:6-56 | the decode loop computes the mosaic result of the frames |
| Mosaic.Report | python-analyzer/analyzer/mosaic.py:52-56 | count is the number of records, detected iff count > 0, timestamps exactly the first min(count, 20) records |
| Mosaic.BoundaryRowsAre | python-analyzer/analyzer/mosaic.py:30 | the visited rows are y, y+bs, y+2bs, ..., each strictly below h-bs, and the next would not be |
| Mosaic.ScoresAtBoundaryRows | python-analyzer/analyzer/mosaic.py:30-35 | each score of a block size is the boundary score at the matching visited row |
| Mosaic.SixteenAlsoEight | python-analyzer/analyzer/mosaic.py:28-35 | every boundary scored for 16-pixel blocks is scored again for 8-pixel blocks |
| Mosaic.SixteenCountedTwice | python-analyzer/analyzer/mosaic.py:28-37 | in the averaged list the 16-pixel scores repeat the odd-numbered 8-pixel scores |
| Mosaic.ShortFrameNeverFlagged | python-analyzer/analyzer/mosaic.py:29-38 | a frame at most 8 rows tall has no scores, an average of 0, and is never recorded |
| Mosaic.RecordsFaithful | python-analyzer/analyzer/mosaic.py:17-46 | each record is a flagged frame at its decode position, time and average score; positions strictly increase |
| Mosaic.FlaggedFramesRecorded | python-analyzer/analyzer/mosaic.py:25-44 | every flagged frame is recorded |
| Mosaic.RecordedIffFlagged | python-analyzer/analyzer/mosaic.py:25-38 | a frame is recorded iff mean edge > edge_threshold and average block score > 20 |
| AvSync.CollectTimes | python-analyzer/analyzer/avsync.py:15-19 | the demux loop collects the times of the timed packets, in order, stopping at 100 |
| AvSync.Collected | python-analyzer/analyzer/avsync.py:12-30 | at most 100 times are collected per stream; none without such a stream |
| AvSync.Decide | python-analyzer/analyzer/avsync.py:34-46 | an empty list gives not detected with drift 0; otherwise drift is abs(v0-a0)*1000 from the first times, and detected iff drift > threshold |
| AvSync.DetectAvSync | python-analyzer/analyzer/avsync.py:4-49 | the detector computes the decision on the collected lists, or the failure result |
| AvSync.NoMeasurementNoDetection | python-analyzer/analyzer/avsync.py:34-49 | every outcome except a measured drift, a failure included, reports detected false and drift 0 |
| AvSync.FirstCollected | python-analyzer/analyzer/avsync.py:16-38 | the first collected time is that of the first packet that carries a PTS |
| AvSync.LaterPacketsIrrelevant | python-analyzer/analyzer/avsync.py:37-39 | packets appended to the video stream, or to the audio stream, after its first timed packet leave the result unchanged |
| Hls.ScanStreamInf | python-analyzer/analyzer/hls.py:30-37 | the loop over the comma pieces collects each piece's BANDWIDTH value / 1000 |
| Hls.ScanLine | python-analyzer/analyzer/hls.py:23-37 | one line adds its `#EXTINF:` duration or its `#EXT-X-STREAM-INF:` bitrates |
| Hls.ScanPlaylist | python-analyzer/analyzer/hls.py:20-37 | the line loop over the stripped, split text collects the durations and bitrates line by line |
| Hls.ExtraProbes | python-analyzer/analyzer/hls.py:39 | min(3, duration // 2) probes: 3 from a duration of 6 on, duration // 2 below it, none below 2 (negative durations included) |
| Hls.RunProbes | python-analyzer/analyzer/hls.py:39-43 | the probe loop collects one latency per probe until one raises |
| Hls.MeanOrNone | python-analyzer/analyzer/hls.py:48-61 | None iff there are no samples; otherwise mean times count equals the sum |
| Hls.Jitter | python-analyzer/analyzer/hls.py:50-53 | None iff fewer than 2 samples; otherwise the mean of consecutive absolute differences |
| Hls.Summarize | python-analyzer/analyzer/hls.py:48-73 | latency, jitter and bitrate average as above; values are exactly the first min(n, 10) bitrates; segmentCount, totalDuration and an average of 0 when there are no segments |
| Hls.AnalyzeHls | python-analyzer/analyzer/hls.py:5-73 | the analysis computes the summary of the first fetch, its scan and the probes |
| Hls.LineFeedsOneList | python-analyzer/analyzer/hls.py:23-29 | no line adds both a duration and bitrates |
| Hls.CollectConcatenates | python-analyzer/analyzer/hls.py:22-37 | durations and bitrates are collected in line order |
| Hls.ExtInfLine | python-analyzer/analyzer/hls.py:23-28 | an `#EXTINF:<v>,<title>` line adds v when v parses as a number, and nothing otherwise, whatever the title holds (colons included) |
| Hls.BandwidthPiece | python-analyzer/analyzer/hls.py:32-34 | a piece `<p>BANDWIDTH=<n>` yields int(n) for any prefix p without a 'B' (`AVERAGE-` included) and n without a 'B' |
| Hls.AtMostFourSamples | python-analyzer/analyzer/hls.py:16-43 | at most four latency samples; only the first fetch's when duration < 2 |
| Hls.FailedFetchEmpty | python-analyzer/analyzer/hls.py:45-73 | a failed first fetch gives no latency, no jitter, no bitrate and no segments |
| Hls.JitterExample | python-analyzer/analyzer/hls.py:50-53 | samples 100, 120 and 110 give a jitter of 15 |
| Hls.SteadyNoJitter | python-analyzer/analyzer/hls.py:52-53 | equal samples give a jitter of 0 |
| Hls.JitterNonNegative | python-analyzer/analyzer/hls.py:52-53 | jitter is never negative |
| Hls.PlaylistLinesExact | python-analyzer/analyzer/hls.py:20 | the lines rejoined with newlines give back the stripped text, and no line holds a newline |
| Hls.IntegerDuration | python-analyzer/analyzer/hls.py:25 | an integer duration such as `#EXTINF:10,` adds that number |
| Hls.LatencyWithinSamples | python-analyzer/analyzer/hls.py:48 | the reported latency lies between any lower and upper bound of the samples |
| AnalyzerMain.LastWhere | python-analyzer/main.py:60-63 | the position found is the last line that qualifies; None iff no line qualifies |
| AnalyzerMain.ScanBackwards | python-analyzer/main.py:60-63 | the reversed scan stops at the last line that qualifies |
| AnalyzerMain.SelectSegment | python-analyzer/main.py:58-63 | the chosen segment is the stripped last line that is non-blank and does not start with '#' |
| AnalyzerMain.ResolveReplacesLastComponent | python-analyzer/main.py:65-67 | a URI starting with "http" is kept; any other follows the playlist URL up to its last '/' and a '/' |
| AnalyzerMain.ResolveWithoutSlash | python-analyzer/main.py:66 | a playlist URL without '/' is the whole base |
| AnalyzerMain.ResolveKeepsSegment | python-analyzer/main.py:67 | the join is concatenation: the relative URI ends the result unchanged, so "../" and a leading '/' are not resolved |
| AnalyzerMain.JoinSegmentUrl | python-analyzer/main.py:65-67 | the handler's join computes the resolved URL |
| AnalyzerMain.ChooseSegment | python-analyzer/main.py:56-67 | the segment URL is the resolved last segment line, or None when the fetch failed or none exists |
| AnalyzerMain.Analyze | python-analyzer/main.py:48-104 | the handler returns the HLS fields and either the five detectors' results on the downloaded segment or the defaults |
| AnalyzerMain.NoSegmentDefaults | python-analyzer/main.py:69-84 | without a downloaded segment every detector result is its default: nothing detected, zero counts, zero drift |
| AnalyzerMain.HlsFieldsPassThrough | python-analyzer/main.py:100-103 | latency, jitter, bitrate and buffer health are the HLS analysis's |
| AnalyzerMain.NoSegmentLineNoDownload | python-analyzer/main.py:59-69 | a playlist without a segment line yields no segment URL |
| Sorting.SortBy | src/app/api/schedule/run/route.ts:27 | ascending order of the key, and a permutation of the input |
| Store.UserWithEmail | src/app/api/auth/register/route.ts:23-24 | finds a user with the email iff one is registered |
| Store.PlaylistWithId | src/app/api/schedule/route.ts:57-58 | finds the playlist with the id iff one exists |
| Store.ScheduleIndex | src/app/api/schedule/run/route.ts:23-32 | finds the scheduled test with the id iff one exists |
| Store.Database.CreateUser | src/app/api/auth/register/route.ts:33-39 | appends one user under a fresh id; emails stay unique; nothing else changes |
| Store.Database.Log | src/lib/activity.ts:3-12 | appends one activity entry; nothing else changes |
| Store.Database.Notify | src/app/api/auth/register/route.ts:43-49 | appends one notification; nothing else changes |
| Store.Database.CreateTestResult | src/app/api/testing/route.ts:52-60 | appends one test result under a fresh id; nothing else changes |
| Store.Database.CreateSchedule | src/app/api/schedule/route.ts:63-78 | appends one scheduled test with status SCHEDULED and no last run, under a fresh id |
| Store.Database.UpdateSchedule | src/app/api/schedule/run/route.ts:37-40 | changes the status of one scheduled test, and its last run time when given; nothing else changes |
| TestingRoute.CountStatuses | src/app/api/testing/route.ts:28-31 | the loop fills `countMap` from the grouped rows |
| TestingRoute.LastRowWins | src/app/api/testing/route.ts:29-31 | a status is in `countMap` iff some row has it, and then holds the count of the last such row |
| TestingRoute.StatsOf | src/app/api/testing/route.ts:32-35 | total is passed + failed + pending |
| TestingRoute.OtherStatusesIgnored | src/app/api/testing/route.ts:32-35 | a status other than COMPLETED, FAILED, PENDING and RUNNING changes no figure |
| TestingRoute.StatsCountResults | src/app/api/testing/route.ts:22-35 | from grouped rows, passed counts COMPLETED, failed FAILED, pending PENDING plus RUNNING, total their sum |
| TestingRoute.GetStats | src/app/api/testing/route.ts:6-35 | 401 without a caller, else the statistics of the grouped rows |
| TestingRoute.PostDecision | src/app/api/testing/route.ts:40-60 | accepted iff a caller and a non-empty url; 401 before 400; the caller's id and the url are stored; channelName is the given name when non-empty, else null; playlistItemId as given |
| TestingRoute.Post | src/app/api/testing/route.ts:40-65 | on a refusal nothing changes; else one PENDING result and one START_TEST entry naming the channel or the url |
| ScheduleRoute.PostDecision | src/app/api/schedule/route.ts:25-78 | 401, then name, then date, then channels, then 404 for a missing or foreign playlist; accepted iff all pass; trimmed name; scheduledAt the given non-empty text; duration 30 and recurrence ONCE by default |
| ScheduleRoute.ChannelsIgnoredWithPlaylist | src/app/api/schedule/route.ts:49-61 | with a playlist named, the channels value never changes the verdict |
| ScheduleRoute.EmptyChannelsRefused | src/app/api/schedule/route.ts:49-54 | without a playlist an empty channel array is refused |
| ScheduleRoute.BlankNameRefused | src/app/api/schedule/route.ts:41-43 | every whitespace-only name, of any length, is refused |
| ScheduleRoute.Post | src/app/api/schedule/route.ts:25-83 | on a refusal nothing changes; else one schedule and one CREATE_SCHEDULE entry, 201 |
| ScheduleRun.Admit | src/app/api/schedule/run/route.ts:12-34 | 401, then 400 without an id, then 404 for a missing or foreign schedule; admitted iff all pass |
| ScheduleRun.EntriesOf | src/app/api/schedule/run/route.ts:46-49 | one channel entry per playlist item, with its url and name |
| ScheduleRun.PlaylistChannelsInOrder | src/app/api/schedule/run/route.ts:27-52 | a linked playlist's items are tested in ascending sortOrder; otherwise the inline channels |
| ScheduleRun.ResultsPerChannel | src/app/api/schedule/run/route.ts:63-76 | one PENDING result per channel with the schedule's duration, the channel name or null, and consecutive fresh ids |
| ScheduleRun.RunDetailsCount | src/app/api/schedule/run/route.ts:104 | the log detail names the schedule and a decimal number that reads back as the count of results |
| ScheduleRun.TestsFollowChannels | src/app/api/schedule/run/route.ts:108-112 | the returned tests name each channel once, in channel order, under distinct result ids |
| ScheduleRun.FinalStatus | src/app/api/schedule/run/route.ts:83-99 | COMPLETED iff the recurrence is ONCE, else SCHEDULED |
| ScheduleRun.CreateResults | src/app/api/schedule/run/route.ts:63-76 | creates exactly the per-channel results; nothing else changes |
| ScheduleRun.Run | src/app/api/schedule/run/route.ts:11-120 | refusals change nothing; an empty channel list ends COMPLETED with lastRunAt and 400; else the results, the final status with lastRunAt, one RUN_SCHEDULE entry and the tests |
| RegisterRoute.RegisterCheck | src/app/api/auth/register/route.ts:9-29 | fields, then length >= 6, then duplicate email; accepted iff all pass |
| RegisterRoute.PasswordBoundary | src/app/api/auth/register/route.ts:16 | six characters pass, five do not |
| RegisterRoute.LengthBeforeDuplicate | src/app/api/auth/register/route.ts:16-29 | a short password is refused whatever users exist |
| RegisterRoute.PublicOf | src/app/api/auth/register/route.ts:51-56 | the reply carries id, name, email and role, never the password |
| RegisterRoute.Register | src/app/api/auth/register/route.ts:6-57 | on a refusal nothing changes; else one user, one REGISTER entry and one welcome notification, all for the new id |
| UsersRoute.Listing | src/app/api/users/route.ts:13-16 | every user, newest first, without the password |
| UsersRoute.Get | src/app/api/users/route.ts:7-19 | 403 for anyone but an administrator, else the listing |
| UsersRoute.CreateCheck | src/app/api/users/route.ts:22-36 | 403, then missing fields, then duplicate email; accepted iff all pass |
| UsersRoute.RoleOf | src/app/api/users/route.ts:40 | the given role when non-empty, else USER |
| UsersRoute.NoMinimumLength | src/app/api/users/route.ts:29-40 | a one-character password is accepted here but refused by registration |
| UsersRoute.Post | src/app/api/users/route.ts:21-47 | on a refusal nothing changes; else one user with the role and one CREATE_USER entry by the administrator |
| Middleware.Token | src/middleware.ts:5-9 | signed in iff either cookie is non-empty |
| Middleware.Decide | src/middleware.ts:10-25 | auth page and signed in gives /home; auth page and signed out passes; other page and signed out gives /login; else passes |
| Middleware.NoRedirectLoop | src/middleware.ts:14-23 | following a redirect with the same cookies never redirects again |
| Middleware.EitherCookie | src/middleware.ts:5-9 | either cookie alone signs in; empty values count as absent |
| Middleware.PrefixMatch | src/middleware.ts:11-12 | "/loginx" and "/register/more" count as auth pages |
| Sidebar.VisibleExactly | src/components/layout/sidebar.tsx:43-44 | the filter keeps exactly the items shown to the role |
| Sidebar.VisibleItems | src/components/layout/sidebar.tsx:14-44 | an administrator sees all seven items; anyone else the first six, in declared order |
| Sidebar.WholeSegmentsOnly | src/components/layout/sidebar.tsx:46 | "/homepage" does not activate "/home", "/home/x" does |
| Sidebar.ActivePrefix | src/components/layout/sidebar.tsx:46 | an active href is the path or the path up to a '/' |
| Sidebar.AtMostOneActive | src/components/layout/sidebar.tsx:14-46 | with the declared hrefs at most one item is active for any path |
| DashboardStats.IntervalMs | src/app/api/dashboard/stats/route.ts:23-30 | 1min, 5min and 10min map to 60000, 300000 and 600000 ms; anything else to 1000 |
| DashboardStats.IntervalDefaults | src/app/api/dashboard/stats/route.ts:34-35 | no parameter means realtime and so 1000 ms; never less than 1000 |
| DashboardStats.CpuUsage | src/app/api/dashboard/stats/route.ts:9-18 | the loop sums the idle and all-tick deltas per core; 0 when no tick elapsed |
| DashboardStats.IdleWithinTicks | src/app/api/dashboard/stats/route.ts:13-16 | with growing counters 0 <= idle <= total |
| DashboardStats.CpuIsPercentage | src/app/api/dashboard/stats/route.ts:13-18 | with growing counters cpu lies between 0 and 100 |
| DashboardStats.CpuExtremes | src/app/api/dashboard/stats/route.ts:18 | a fully idle interval reads 0, one without idle ticks 100 |
| DashboardStats.MemoryOf | src/app/api/dashboard/stats/route.ts:46-53 | used + free is total, percent is used/total*100, within 0 to 100 when free <= total |
| DashboardStats.StatsStream.SendStats | src/app/api/dashboard/stats/route.ts:42-62 | nothing once closed; a failed reading closes the stream; else one event |
| DashboardStats.StatsStream.Abort | src/app/api/dashboard/stats/route.ts:67-71 | the stream is closed and nothing more is sent |
| ReportsRoute.WhereOf | src/app/api/reports/route.ts:17-25 | userId always; status and channel only when non-empty; testedAt iff from or to is non-empty, with gte from and lte to + T23:59:59.999Z |
| ReportsRoute.BuildWhere | src/app/api/reports/route.ts:12-25 | the successive assignments build that filter |
| ReportsRoute.OtherParamsIgnored | src/app/api/reports/route.ts:12-15 | parameters other than status, channel, from and to have no effect |
| ReportsRoute.FilterExactly | src/app/api/reports/route.ts:17-25 | a row is kept iff it satisfies the filter; channel matching ignores case |
| ReportsRoute.PageIsNewestMatches | src/app/api/reports/route.ts:27-31 | exactly min(100, matching rows) rows, newest first, each a stored row satisfying the filter; every matching row left off is no newer than any row on the page |
| ReportsRoute.OnlyCallersRows | src/app/api/reports/route.ts:17 | every row returned is the caller's |
| ReportsRoute.Get | src/app/api/reports/route.ts:5-34 | 401 without a caller, else the page |

## Left out

- Decoding and pixel arithmetic are inputs of the model: PyAV, numpy and OpenCV (the correlation, the Sobel edges, the mean luma). So are the HTTP fetches, the temporary file, `time.time()` and the latency measurements.
- Rounding to 2 or 4 decimals in the result dicts is float formatting and is not modelled; reals are exact.
- `float()` is modelled for plain decimal text only. Exponents, `inf`, `nan` and underscores are not accepted.
- Whitespace is ASCII whitespace only. `int()` accepts no underscores.
- AvSync.DetectAvSync: a failure after the container has opened (a demux error part-way) is modelled only as the whole detector failing. The partial lists are not modelled.
- AnalyzerMain.Analyze: the `{}` defaults of `hls_result.get(...)` are not modelled, because the HLS result always has those keys.
- AnalyzerMain.Analyze: an exception escaping to the 500 reply is not modelled.
- Mosaic.DetectMosaic requires rectangular frames (every row of the frame's width), as decoding always produces.
- Hls.RunProbes: a probe is a parameter that gives the latency or fails. A failing probe ends the analysis of the stream.
- bcrypt is the parameter `hash`, and the auth session is the input `caller`.
- The "USER" role default of registration and the SCHEDULED status of a new schedule come from the database schema, which is not part of this model.
- Prisma is an in-memory store: table order is creation order, and ids are consecutive numbers. The order of rows with equal keys in `orderBy` is not modelled.
- TestingRoute.PostDecision: `playlistItemId || null` is stored as the given id. The model's ids are numbers, so an empty-string id, which the handler would store as null, cannot be given.
- UsersRoute.Get and UsersRoute.Post: the `createdAt` field of the users replies is not modelled. The listing is in creation order, newest first, instead of ordering on a timestamp.
- ScheduleRoute.Post: the reply's included playlist with its items is not modelled. The reply is the stored schedule.
- The `results` listing of testing `GET`, with its `limit`, is left out: it is a plain query. So is the schedule `GET` listing.
- Dates: `new Date(...)` is the parameter `instant` in the reports filter, and `new Date()` is the parameter `now` of a run. `scheduledAt` is stored as the given text.
- JavaScript string length counts UTF-16 units; the model counts characters. Case-insensitive matching folds ASCII letters only.
- Request bodies are assumed to hold strings, numbers and arrays where the handlers expect them. A non-string `name` (where `.trim()` would throw) is not modelled.
- ScheduleRun.CreateResults: `Promise.all` runs the creations concurrently. The model creates them in channel order.
- ScheduleRun.Run: an inline `channels` value that is not an array makes the handler throw. The model answers 500 and leaves the schedule RUNNING, as the handler does.
- ScheduleRun.Run: a `channels` array whose entries lack fields is not modelled.
- Middleware: the `config.matcher` path pattern of Next.js is not modelled; the decision is modelled for every path it lets through.
- DashboardStats.CpuUsage requires the second sample to have no more cores than the first. Otherwise the source reads past the first sample.
- DashboardStats.MemoryOf requires a positive total memory.
- The server-sent event stream, its timer and the `os` sampling are inputs of `StatsStream.SendStats`.
- The browser-side per-second quality accumulator, the single-channel test session and the multi-channel batch runner are not part of this model: their source is not among the files modelled.
- The notifications, playlists, activity and per-id routes and the pages are not part of this model: they are plain queries or UI.
