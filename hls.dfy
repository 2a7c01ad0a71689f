/**
 * HLS playlist analysis (`analyze_hls` in python-analyzer/analyzer/hls.py): one fetch of the
 * playlist whose tags are scanned for segment durations (`#EXTINF`, section 4.3.2.1 of
 * RFC 8216) and variant bandwidths (`BANDWIDTH` of `#EXT-X-STREAM-INF`, section 4.3.4.2 of
 * RFC 8216), then a few more fetches timed for latency, and the aggregates over all of it.
 * The network and the clock are inputs: a fetch's outcome and the latency it measured.
 */
module Hls {
  import opened Wrappers
  import opened Text
  import opened Numeric

  const ExtInf: string := "#EXTINF:"
  const StreamInf: string := "#EXT-X-STREAM-INF:"
  const BandwidthKey: string := "BANDWIDTH="
  /** At most this many extra latency probes are made. */
  const MaxProbes: nat := 3
  /** Only the first 10 bitrates are listed. */
  const ListedBitrates: nat := 10

  /**
   * The outcome of the first playlist fetch: a failure, or the latency in milliseconds, the
   * playlist text, and the outcome of each further probe in order (`None`: the probe raised).
   */
  datatype Fetch =
    | Failed
    | Fetched(initialLatency: real, text: string, probe: nat -> Option<real>)

  datatype Bitrate = Bitrate(average: Option<real>, values: seq<real>)

  datatype BufferHealth = BufferHealth(totalDuration: real, segmentCount: nat, avgSegmentDuration: real)

  datatype HlsResult = HlsResult(latency: Option<real>, jitter: Option<real>, bitrate: Bitrate, bufferHealth: BufferHealth)

  /** `text.strip().split("\n")`. */
  function PlaylistLines(text: string): seq<string> {
    Split(Strip(text), "\n")
  }

  /** `float(line.split(":")[1].split(",")[0])`: `None` where Python raises. */
  function ExtInfDuration(line: string): Option<real> {
    var pieces := Split(line, ":");
    if |pieces| < 2 then None else ParseFloat(Split(pieces[1], ",")[0])
  }

  /** The duration an `#EXTINF:` line adds: the number between the first ':' and the next ','; nothing when it does not parse. */
  function LineDuration(line: string): seq<real> {
    if StartsWith(line, ExtInf) then
      match ExtInfDuration(line)
      case Some(d) => [d]
      case None => []
    else []
  }

  /** `int(part.split("BANDWIDTH=")[1])`: `None` where Python raises. */
  function Bandwidth(part: string): Option<int> {
    var pieces := Split(part, BandwidthKey);
    if |pieces| < 2 then None else ParseInt(pieces[1])
  }

  /** The bitrate, in kbit/s, that one comma-separated piece of an `#EXT-X-STREAM-INF:` line adds. */
  function PartBitrate(part: string): seq<real> {
    if Contains(part, BandwidthKey) then
      match Bandwidth(part)
      case Some(bw) => [bw as real / 1000.0]
      case None => []
    else []
  }

  function PartsBitrates(parts: seq<string>): seq<real> {
    if parts == [] then [] else PartsBitrates(parts[..|parts| - 1]) + PartBitrate(parts[|parts| - 1])
  }

  /** The bitrates a line adds: only a line that is not an `#EXTINF:` line and is an `#EXT-X-STREAM-INF:` line. */
  function LineBitrates(line: string): seq<real> {
    if StartsWith(line, ExtInf) then []
    else if StartsWith(line, StreamInf) then PartsBitrates(Split(line, ","))
    else []
  }

  /** What each line adds, in line order. */
  function Collect(lines: seq<string>, add: string -> seq<real>): seq<real> {
    if lines == [] then [] else Collect(lines[..|lines| - 1], add) + add(lines[|lines| - 1])
  }

  function DurationsOf(lines: seq<string>): seq<real> {
    Collect(lines, LineDuration)
  }

  function BitratesOf(lines: seq<string>): seq<real> {
    Collect(lines, LineBitrates)
  }

  /** The loop over the pieces of an `#EXT-X-STREAM-INF:` line. */
  method ScanStreamInf(line: string) returns (bitrates: seq<real>)
    ensures bitrates == PartsBitrates(Split(line, ","))
  {
    var parts := Split(line, ",");
    bitrates := [];
    var i := 0;
    while i < |parts|
      invariant 0 <= i <= |parts|
      invariant bitrates == PartsBitrates(parts[..i])
    {
      var part := parts[i];
      assert parts[..i + 1][..i] == parts[..i];
      assert PartsBitrates(parts[..i + 1]) == bitrates + PartBitrate(part);
      if Contains(part, BandwidthKey) {
        var bw := Bandwidth(part);
        if bw.Some? {
          bitrates := bitrates + [bw.value as real / 1000.0];
        } else {
          assert PartBitrate(part) == [];
        }
      } else {
        assert PartBitrate(part) == [];
      }
      i := i + 1;
    }
    assert parts[..i] == parts;
  }

  /** The body of the line loop: what one line adds to the durations and to the bitrates. */
  method ScanLine(line: string) returns (duration: seq<real>, found: seq<real>)
    ensures duration == LineDuration(line) && found == LineBitrates(line)
  {
    duration, found := [], [];
    if StartsWith(line, ExtInf) {
      var dur := ExtInfDuration(line);
      if dur.Some? {
        duration := [dur.value];
      }
    } else if StartsWith(line, StreamInf) {
      found := ScanStreamInf(line);
    }
  }

  /** One more line adds what that line adds. */
  lemma CollectStep(lines: seq<string>, i: nat, add: string -> seq<real>)
    requires i < |lines|
    ensures Collect(lines[..i + 1], add) == Collect(lines[..i], add) + add(lines[i])
  {
    assert lines[..i + 1][..i] == lines[..i];
  }

  /** The line loop of `analyze_hls`. */
  method ScanPlaylist(text: string) returns (durations: seq<real>, bitrates: seq<real>)
    ensures durations == DurationsOf(PlaylistLines(text))
    ensures bitrates == BitratesOf(PlaylistLines(text))
  {
    var lines := PlaylistLines(text);
    durations, bitrates := ScanLines(lines);
  }

  /** The loop over the playlist's lines. */
  method ScanLines(lines: seq<string>) returns (durations: seq<real>, bitrates: seq<real>)
    ensures durations == DurationsOf(lines) && bitrates == BitratesOf(lines)
  {
    durations, bitrates := [], [];
    var i := 0;
    while i < |lines|
      invariant 0 <= i <= |lines|
      invariant durations == DurationsOf(lines[..i])
      invariant bitrates == BitratesOf(lines[..i])
    {
      CollectStep(lines, i, LineDuration);
      CollectStep(lines, i, LineBitrates);
      var duration, found := ScanLine(lines[i]);
      durations := durations + duration;
      bitrates := bitrates + found;
      i := i + 1;
    }
    assert lines[..i] == lines;
  }

  /** `min(3, duration // 2)` probes, none for a negative count; `/` by a positive divisor is floor division. */
  function ExtraProbes(duration: int): (n: nat)
    ensures n <= MaxProbes
    ensures duration >= 6 ==> n == MaxProbes
    ensures 0 <= duration < 6 ==> n == duration / 2
    ensures duration < 2 ==> n == 0
  {
    var half := duration / 2;
    if half < 0 then 0 else if half < MaxProbes then half else MaxProbes
  }

  /** The latencies of probes `i` to `n - 1`, up to the first that raised. */
  function ProbesFrom(probe: nat -> Option<real>, i: nat, n: nat): (lats: seq<real>)
    ensures |lats| <= n - i || (i >= n && lats == [])
    decreases n - i
  {
    if i >= n then []
    else
      match probe(i)
      case None => []
      case Some(lat) => [lat] + ProbesFrom(probe, i + 1, n)
  }

  /** The probe loop of `analyze_hls`: a probe that raises ends the analysis of the stream. */
  method RunProbes(probe: nat -> Option<real>, duration: int) returns (lats: seq<real>)
    ensures lats == ProbesFrom(probe, 0, ExtraProbes(duration))
  {
    var n := ExtraProbes(duration);
    lats := [];
    var i := 0;
    while i < n
      invariant 0 <= i <= n
      invariant lats + ProbesFrom(probe, i, n) == ProbesFrom(probe, 0, n)
    {
      var outcome := probe(i);
      if outcome.None? {
        return;
      }
      ghost var rest := ProbesFrom(probe, i + 1, n);
      assert lats + [outcome.value] + rest == lats + ([outcome.value] + rest);
      lats := lats + [outcome.value];
      i := i + 1;
    }
  }

  /** The latency samples: none when the first fetch failed, else the first fetch's and the probes'. */
  function Latencies(fetch: Fetch, duration: int): seq<real> {
    match fetch
    case Failed => []
    case Fetched(first, _, probe) => [first] + ProbesFrom(probe, 0, ExtraProbes(duration))
  }

  /** `sum(xs) / len(xs) if xs else None`. */
  function MeanOrNone(xs: seq<real>): (r: Option<real>)
    ensures r.None? <==> xs == []
    ensures r.Some? ==> r.value * |xs| as real == Sum(xs)
  {
    if xs == [] then None else Some(Mean(xs))
  }

  /** The absolute differences of consecutive samples. */
  function Diffs(l: seq<real>): (d: seq<real>)
    requires |l| >= 1
    ensures |d| == |l| - 1
  {
    seq(|l| - 1, i requires 0 <= i < |l| - 1 => Abs(l[i + 1] - l[i]))
  }

  /** The mean absolute difference of consecutive latencies; none with fewer than two. */
  function Jitter(l: seq<real>): (j: Option<real>)
    ensures j.None? <==> |l| < 2
  {
    if |l| > 1 then Some(Mean(Diffs(l))) else None
  }

  /** The aggregates of `analyze_hls`. */
  function Summarize(latencies: seq<real>, durations: seq<real>, bitrates: seq<real>): (r: HlsResult)
    ensures r.latency == MeanOrNone(latencies) && r.jitter == Jitter(latencies)
    ensures r.bitrate.average == MeanOrNone(bitrates)
    ensures r.bitrate.values == bitrates[..if |bitrates| < ListedBitrates then |bitrates| else ListedBitrates]
    ensures r.bufferHealth.segmentCount == |durations| && r.bufferHealth.totalDuration == Sum(durations)
    ensures durations == [] ==> r.bufferHealth.avgSegmentDuration == 0.0
    ensures durations != [] ==> r.bufferHealth.avgSegmentDuration * |durations| as real == Sum(durations)
  {
    var total := Sum(durations);
    HlsResult(
      MeanOrNone(latencies),
      Jitter(latencies),
      Bitrate(MeanOrNone(bitrates), Prefix(bitrates, ListedBitrates)),
      BufferHealth(total, |durations|, if durations != [] then total / |durations| as real else 0.0))
  }

  function HlsOf(fetch: Fetch, duration: int): HlsResult {
    match fetch
    case Failed => Summarize([], [], [])
    case Fetched(_, text, _) =>
      var lines := PlaylistLines(text);
      Summarize(Latencies(fetch, duration), DurationsOf(lines), BitratesOf(lines))
  }

  method AnalyzeHls(fetch: Fetch, duration: int) returns (r: HlsResult)
    ensures r == HlsOf(fetch, duration)
  {
    var latencies: seq<real> := [];
    var durations: seq<real> := [];
    var bitrates: seq<real> := [];
    if fetch.Fetched? {
      latencies := [fetch.initialLatency];
      durations, bitrates := ScanPlaylist(fetch.text);
      var probes := RunProbes(fetch.probe, duration);
      latencies := latencies + probes;
    }
    r := Summarize(latencies, durations, bitrates);
  }

  /** No line contributes both a duration and bitrates: `#EXTINF:` is tested first, and no line has both prefixes. */
  lemma LineFeedsOneList(line: string)
    ensures LineDuration(line) == [] || LineBitrates(line) == []
    ensures !(StartsWith(line, ExtInf) && StartsWith(line, StreamInf))
  {
    assert ExtInf[4] == 'I' && StreamInf[4] == '-';
  }

  /** Durations and bitrates are collected in line order: the scan of two runs of lines is the two scans in sequence. */
  lemma {:induction false} CollectConcatenates(a: seq<string>, b: seq<string>, add: string -> seq<real>)
    ensures Collect(a + b, add) == Collect(a, add) + Collect(b, add)
  {
    if b == [] {
      assert a + b == a;
    } else {
      CollectConcatenates(a, b[..|b| - 1], add);
      assert (a + b)[..|a + b| - 1] == a + b[..|b| - 1];
      assert (a + b)[|a + b| - 1] == b[|b| - 1];
    }
  }

  /**
   * An `#EXTINF:` line whose duration field is followed by a comma adds the number that
   * field parses to, or nothing when it does not parse.
   */
  lemma ExtInfLine(value: string, title: string)
    requires ':' !in value && ',' !in value
    ensures LineDuration(ExtInf + value + "," + title) == if ParseFloat(value).Some? then [ParseFloat(value).value] else []
  {
    var u := value + "," + title;
    var line := ExtInf + u;
    assert line == ExtInf + value + "," + title;
    assert StartsWith(line, ExtInf) by { assert line[..|ExtInf|] == ExtInf; }
    ColonFields(u);
    DurationField(value, title);
  }

  /** Before the first ':' of `value,title` and then before its first ',' lies `value`, whatever the title holds. */
  lemma DurationField(value: string, title: string)
    requires ':' !in value && ',' !in value
    ensures Split(Split(value + "," + title, ":")[0], ",")[0] == value
  {
    var u := value + "," + title;
    var k := |value| + 1;
    forall j | 0 <= j < k ensures !OccursAt(u, ":", j) {
      assert u[j..j + 1][0] == u[j];
      assert j < |value| ==> u[j] == value[j];
    }
    SplitHead(u, ":", k);
    var head := Split(u, ":")[0];
    assert head[..k] == u[..k] == value + ",";
    assert head == value + "," + head[k..];
    FirstField(value, head[k..]);
  }

  /** An `#EXTINF:` line splits at ':' into the tag name and the pieces of what follows the tag. */
  lemma ColonFields(u: string)
    ensures Split(ExtInf + u, ":") == ["#EXTINF"] + Split(u, ":")
  {
    var line := ExtInf + u;
    assert line[..7] == "#EXTINF" && line[8..] == u;
    forall j | 0 <= j < 7 ensures !OccursAt(line, ":", j) {
      assert line[j..j + 1][0] == line[j];
    }
    assert line[7..8] == ":";
    SplitAtFirst(line, ":", 7);
  }

  /** The text before the first ',' of `value,title` is `value`. */
  lemma FirstField(value: string, title: string)
    requires ',' !in value
    ensures Split(value + "," + title, ",")[0] == value
  {
    var u := value + "," + title;
    assert u[..|value|] == value && u[|value|..|value| + 1] == ",";
    forall j | 0 <= j < |value| ensures !OccursAt(u, ",", j) {
      assert u[j..j + 1][0] == u[j] == value[j];
    }
    SplitAtFirst(u, ",", |value|);
  }

  /** A piece `BANDWIDTH=<n>` adds n/1000, and so does `AVERAGE-BANDWIDTH=<n>`: any text before the key is ignored. */
  lemma BandwidthPiece(prefix: string, value: string)
    requires 'B' !in prefix && 'B' !in value
    ensures Contains(prefix + BandwidthKey + value, BandwidthKey)
    ensures Bandwidth(prefix + BandwidthKey + value) == ParseInt(value)
  {
    var part := prefix + BandwidthKey + value;
    assert part[..|prefix|] == prefix;
    assert part[|prefix|..|prefix| + |BandwidthKey|] == BandwidthKey;
    assert part[|prefix| + |BandwidthKey|..] == value;
    forall j | 0 <= j < |prefix| ensures !OccursAt(part, BandwidthKey, j) {
      assert part[j] == prefix[j];
      assert j + |BandwidthKey| <= |part| ==> part[j..j + |BandwidthKey|][0] == part[j];
    }
    SplitAtFirst(part, BandwidthKey, |prefix|);
    AbsentInitial(value, BandwidthKey);
    SplitAbsent(value, BandwidthKey);
  }

  /** There are at most four latency samples: the first fetch's and at most three probes'. */
  lemma AtMostFourSamples(fetch: Fetch, duration: int)
    ensures |Latencies(fetch, duration)| <= 1 + MaxProbes
    ensures fetch.Fetched? && duration < 2 ==> Latencies(fetch, duration) == [fetch.initialLatency]
  {
  }

  /** A failed first fetch yields no latency, no jitter, no bitrate and no segments. */
  lemma FailedFetchEmpty(duration: int)
    ensures var r := HlsOf(Failed, duration);
      r.latency.None? && r.jitter.None? && r.bitrate == Bitrate(None, []) && r.bufferHealth == BufferHealth(0.0, 0, 0.0)
  {
  }

  /** Jitter of the samples 100, 120 and 110 ms is 15 ms. */
  lemma JitterExample()
    ensures Jitter([100.0, 120.0, 110.0]) == Some(15.0)
  {
    var l := [100.0, 120.0, 110.0];
    var d := Diffs(l);
    assert d[0] == 20.0 && d[1] == 10.0;
    assert d[..1][..0] == [];
    assert Sum(d) == Sum(d[..1]) + d[1] == 30.0;
  }

  /** Steady latencies have no jitter. */
  lemma {:induction false} SteadyNoJitter(l: seq<real>)
    requires |l| >= 2 && forall i :: 0 <= i < |l| ==> l[i] == l[0]
    ensures Jitter(l) == Some(0.0)
  {
    var d := Diffs(l);
    assert AllWithin(d, 0.0, 0.0);
    SumWithin(d, 0.0, 0.0);
  }

  /** Jitter is never negative. */
  lemma JitterNonNegative(l: seq<real>)
    requires |l| >= 2
    ensures Jitter(l).value >= 0.0
  {
    var d := Diffs(l);
    SumNonNegative(d);
  }

  /** The playlist lines are the stripped text cut at every newline: rejoined they give it back, and none holds a newline. */
  lemma PlaylistLinesExact(text: string)
    ensures Join(PlaylistLines(text), "\n") == Strip(text)
    ensures forall k :: 0 <= k < |PlaylistLines(text)| ==> !Contains(PlaylistLines(text)[k], "\n")
  {
    JoinSplit(Strip(text), "\n");
    forall k | 0 <= k < |PlaylistLines(text)| ensures !Contains(PlaylistLines(text)[k], "\n") {
      SplitPiecesFree(Strip(text), "\n", k);
    }
  }

  /** An integer duration such as `#EXTINF:10,` adds that number. */
  lemma IntegerDuration(value: string, title: string)
    requires ParseInt(value).Some?
    ensures LineDuration(ExtInf + value + "," + title) == [ParseInt(value).value as real]
  {
    IntTextChars(value);
    assert ':' !in value && ',' !in value by {
      forall k | 0 <= k < |value| ensures value[k] != ':' && value[k] != ',' {
        assert IsSpace(value[k]) || IsDigit(value[k]) || value[k] == '-' || value[k] == '+';
      }
    }
    ParseFloatOfInt(value);
    ExtInfLine(value, title);
  }

  /** The reported latency lies between any lower and upper bound of the samples. */
  lemma LatencyWithinSamples(latencies: seq<real>, durations: seq<real>, bitrates: seq<real>, lo: real, hi: real)
    requires latencies != [] && AllWithin(latencies, lo, hi)
    ensures Summarize(latencies, durations, bitrates).latency.Some?
    ensures lo <= Summarize(latencies, durations, bitrates).latency.value <= hi
  {
    MeanWithin(latencies, lo, hi);
  }
}
