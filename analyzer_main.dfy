/**
 * The `/analyze` endpoint of python-analyzer/main.py: the HLS analysis, then the choice of
 * the last media segment of the playlist, its download, and the five detectors run on it,
 * each result defaulting to "nothing detected" when no segment was obtained.
 * The two network fetches and the download are inputs; the downloaded segment is given
 * as what the media library reads from it.
 */
module AnalyzerMain {
  import opened Wrappers
  import opened Text
  import opened Media
  import Hls
  import Freeze
  import BlackFrame
  import Mosaic
  import AvSync
  import Metrics

  /** A downloaded segment file: unreadable, or its first video and audio streams and its decoded frames. */
  datatype SegmentFile =
    | Unreadable
    | Readable(video: Option<Stream>, audio: Option<Stream>, frames: seq<Picture>)

  datatype Response = Response(
    freeze: Freeze.FreezeResult,
    mosaic: Mosaic.MosaicResult,
    blackFrame: BlackFrame.BlackResult,
    avSync: AvSync.AvSyncResult,
    lossFrame: Metrics.LossResult,
    latency: Option<real>,
    jitter: Option<real>,
    bitrate: Hls.Bitrate,
    bufferHealth: Hls.BufferHealth)

  /** A line naming a media segment: not a tag or comment, and not blank. */
  predicate IsSegmentLine(line: string) {
    !StartsWith(line, "#") && Strip(line) != []
  }

  /** The position of the last line satisfying `keep`, if any. */
  function LastWhere(lines: seq<string>, keep: string -> bool): (r: Option<nat>)
    ensures r.None? ==> forall k :: 0 <= k < |lines| ==> !keep(lines[k])
    ensures r.Some? ==> r.value < |lines| && keep(lines[r.value])
    ensures r.Some? ==> forall j :: r.value < j < |lines| ==> !keep(lines[j])
  {
    if lines == [] then None
    else if keep(lines[|lines| - 1]) then Some(|lines| - 1)
    else
      var r := LastWhere(lines[..|lines| - 1], keep);
      assert forall k :: 0 <= k < |lines| - 1 ==> lines[..|lines| - 1][k] == lines[k];
      r
  }

  /**
   * The last segment line of the playlist, stripped: `None` exactly when no line is a
   * segment line, and no line after the chosen one is a segment line.
   */
  function LastSegment(lines: seq<string>): Option<string> {
    match LastWhere(lines, IsSegmentLine)
    case None => None
    case Some(k) => Some(Strip(lines[k]))
  }

  /** The reversed scan of `analyze`: the position of the last line satisfying `keep`. */
  method ScanBackwards(lines: seq<string>, keep: string -> bool) returns (found: Option<nat>)
    ensures found == LastWhere(lines, keep)
  {
    var i := |lines|;
    assert lines[..i] == lines;
    while i > 0
      invariant 0 <= i <= |lines|
      invariant LastWhere(lines, keep) == LastWhere(lines[..i], keep)
    {
      assert lines[..i][..i - 1] == lines[..i - 1];
      if keep(lines[i - 1]) {
        return Some(i - 1);
      }
      i := i - 1;
    }
    found := None;
  }

  /** The segment line chosen by `analyze`, stripped. */
  method SelectSegment(lines: seq<string>) returns (segmentUrl: Option<string>)
    ensures segmentUrl == LastSegment(lines)
  {
    var found := ScanBackwards(lines, IsSegmentLine);
    segmentUrl := if found.Some? then Some(Strip(lines[found.value])) else None;
  }

  /** A segment URI not starting with "http" is appended to the playlist URL up to its last '/'. */
  function ResolveSegment(playlistUrl: string, segment: string): string {
    if StartsWith(segment, "http") then segment
    else BeforeLast(playlistUrl, '/') + "/" + segment
  }

  /** An absolute URI is kept; a relative one replaces the playlist URL's last path component, verbatim. */
  lemma ResolveReplacesLastComponent(playlistUrl: string, segment: string)
    ensures StartsWith(segment, "http") ==> ResolveSegment(playlistUrl, segment) == segment
    ensures !StartsWith(segment, "http") && '/' in playlistUrl ==>
      exists i :: 0 <= i < |playlistUrl| && playlistUrl[i] == '/' && '/' !in playlistUrl[i + 1..]
        && ResolveSegment(playlistUrl, segment) == playlistUrl[..i + 1] + segment
  {
    if !StartsWith(segment, "http") && '/' in playlistUrl {
      var base := BeforeLast(playlistUrl, '/');
      var i := |base|;
      assert playlistUrl[..i + 1] == base + "/";
      assert ResolveSegment(playlistUrl, segment) == playlistUrl[..i + 1] + segment;
    }
  }

  /** A playlist URL without '/' is used whole as the base. */
  lemma ResolveWithoutSlash(playlistUrl: string, segment: string)
    requires '/' !in playlistUrl && !StartsWith(segment, "http")
    ensures ResolveSegment(playlistUrl, segment) == playlistUrl + "/" + segment
  {
  }

  /** The join is plain concatenation: the relative URI ends the result unchanged, so "../" and a leading '/' are not resolved. */
  lemma ResolveKeepsSegment(playlistUrl: string, segment: string)
    ensures var r := ResolveSegment(playlistUrl, segment);
      |segment| <= |r| && r[|r| - |segment|..] == segment
  {
  }

  /** The URL of the segment to download, if the playlist (`None`: its fetch failed) names one. */
  function SegmentUrlOf(playlistUrl: string, playlist: Option<string>): Option<string> {
    if playlist.None? then None
    else
      match LastSegment(Split(Strip(playlist.value), "\n"))
      case None => None
      case Some(segment) => Some(ResolveSegment(playlistUrl, segment))
  }

  const DefaultFreeze := Freeze.FreezeResult(false, 0, [])
  const DefaultBlack := BlackFrame.BlackResult(false, 0, [])
  const DefaultMosaic := Mosaic.MosaicResult(false, 0, [])
  const DefaultAvSync := AvSync.AvSyncResult(false, 0.0, AvSync.NotRun)
  const DefaultLoss := Metrics.LossResult(false, 0, 0, None)

  /** The frames a detector decodes: none when the file has no video stream. */
  function FramesOf(file: SegmentFile): seq<Picture> {
    if file.Readable? && file.video.Some? then file.frames else []
  }

  function RateOf(file: SegmentFile): Option<NonNegReal> {
    if file.Readable? && file.video.Some? then file.video.value.averageRate else None
  }

  function ContainerOf(file: SegmentFile): Option<AvSync.Container> {
    if file.Readable? then Some(AvSync.Container(file.video, file.audio)) else None
  }

  function VideoOf(file: SegmentFile): Option<Stream> {
    if file.Readable? then file.video else None
  }

  /** What `analyze` returns, given the outcomes of the fetches and of the download. */
  function AnalysisOf(url: string, duration: int, hlsFetch: Hls.Fetch, playlist: Option<string>,
                      download: string -> Option<SegmentFile>): Response
  {
    var hls := Hls.HlsOf(hlsFetch, duration);
    var segmentUrl := SegmentUrlOf(url, playlist);
    var file := if segmentUrl.Some? then download(segmentUrl.value) else None;
    match file
    case None =>
      Response(DefaultFreeze, DefaultMosaic, DefaultBlack, DefaultAvSync, DefaultLoss,
               hls.latency, hls.jitter, hls.bitrate, hls.bufferHealth)
    case Some(f) =>
      Response(
        Freeze.FreezeOf(FramesOf(f), RateOf(f), Freeze.DefaultThreshold, Freeze.DefaultMinDuration),
        Mosaic.MosaicOf(FramesOf(f), RateOf(f), Mosaic.DefaultEdgeThreshold),
        BlackFrame.BlackFrameOf(FramesOf(f), RateOf(f), BlackFrame.DefaultThreshold),
        AvSync.AvSyncOf(ContainerOf(f), AvSync.DefaultThresholdMs),
        Metrics.MetricsOf(VideoOf(f)),
        hls.latency, hls.jitter, hls.bitrate, hls.bufferHealth)
  }

  /** The playlist part of the `/analyze` handler: the segment URL to download, if any. */
  method ChooseSegment(url: string, playlist: Option<string>) returns (segmentUrl: Option<string>)
    ensures segmentUrl == SegmentUrlOf(url, playlist)
  {
    segmentUrl := None;
    if playlist.Some? {
      var lines := Split(Strip(playlist.value), "\n");
      var segment := SelectSegment(lines);
      if segment.Some? {
        var joined := JoinSegmentUrl(url, segment.value);
        segmentUrl := Some(joined);
      }
    }
  }

  /** The URL join of `analyze`. */
  method JoinSegmentUrl(url: string, segment: string) returns (segmentUrl: string)
    ensures segmentUrl == ResolveSegment(url, segment)
  {
    if StartsWith(segment, "http") {
      segmentUrl := segment;
    } else {
      var baseUrl := BeforeLast(url, '/');
      segmentUrl := baseUrl + "/" + segment;
    }
  }

  /** The `/analyze` handler. */
  method Analyze(url: string, duration: int, hlsFetch: Hls.Fetch, playlist: Option<string>,
                 download: string -> Option<SegmentFile>) returns (r: Response)
    ensures r == AnalysisOf(url, duration, hlsFetch, playlist, download)
  {
    var hlsResult := Hls.AnalyzeHls(hlsFetch, duration);
    var file: Option<SegmentFile> := None;
    var segmentUrl := ChooseSegment(url, playlist);
    if segmentUrl.Some? {
      file := download(segmentUrl.value);
    }
    var freezeResult := DefaultFreeze;
    var blackResult := DefaultBlack;
    var mosaicResult := DefaultMosaic;
    var avsyncResult := DefaultAvSync;
    var lossResult := DefaultLoss;
    if file.Some? {
      var f := file.value;
      freezeResult := Freeze.DetectFreeze(FramesOf(f), RateOf(f), Freeze.DefaultThreshold, Freeze.DefaultMinDuration);
      blackResult := BlackFrame.DetectBlackFrame(FramesOf(f), RateOf(f), BlackFrame.DefaultThreshold);
      mosaicResult := Mosaic.DetectMosaic(FramesOf(f), RateOf(f), Mosaic.DefaultEdgeThreshold);
      avsyncResult := AvSync.DetectAvSync(ContainerOf(f), AvSync.DefaultThresholdMs);
      lossResult := Metrics.AnalyzeMetrics(VideoOf(f));
    }
    r := Response(freezeResult, mosaicResult, blackResult, avsyncResult, lossResult,
                  hlsResult.latency, hlsResult.jitter, hlsResult.bitrate, hlsResult.bufferHealth);
  }

  /** Without a downloaded segment every detector result is its default: nothing detected, zero counts, zero drift. */
  lemma NoSegmentDefaults(url: string, duration: int, hlsFetch: Hls.Fetch, playlist: Option<string>,
                          download: string -> Option<SegmentFile>)
    requires SegmentUrlOf(url, playlist).None? || download(SegmentUrlOf(url, playlist).value).None?
    ensures var r := AnalysisOf(url, duration, hlsFetch, playlist, download);
      && !r.freeze.detected && r.freeze.count == 0 && r.freeze.timestamps == []
      && !r.blackFrame.detected && r.blackFrame.count == 0 && r.blackFrame.timestamps == []
      && !r.mosaic.detected && r.mosaic.count == 0 && r.mosaic.timestamps == []
      && !r.avSync.detected && r.avSync.driftMs == 0.0
      && !r.lossFrame.detected && r.lossFrame.dropped == 0 && r.lossFrame.total == 0 && r.lossFrame.dropRate.None?
  {
  }

  /** Latency, jitter, bitrate and buffer health are those of the HLS analysis, whatever happens to the segment. */
  lemma HlsFieldsPassThrough(url: string, duration: int, hlsFetch: Hls.Fetch, playlist: Option<string>,
                             download: string -> Option<SegmentFile>)
    ensures var r := AnalysisOf(url, duration, hlsFetch, playlist, download);
      var hls := Hls.HlsOf(hlsFetch, duration);
      r.latency == hls.latency && r.jitter == hls.jitter && r.bitrate == hls.bitrate && r.bufferHealth == hls.bufferHealth
  {
  }

  /** With no segment line in the playlist, nothing is downloaded. */
  lemma NoSegmentLineNoDownload(url: string, text: string)
    requires forall k :: 0 <= k < |Split(Strip(text), "\n")| ==> !IsSegmentLine(Split(Strip(text), "\n")[k])
    ensures SegmentUrlOf(url, Some(text)).None?
  {
  }
}
