/**
 * Audio/video synchronisation check (`detect_av_sync` in python-analyzer/analyzer/avsync.py):
 * the presentation times of at most the first 100 timed packets of each stream are
 * collected, and the drift is the distance between the first video and the first audio time.
 */
module AvSync {
  import opened Wrappers
  import opened Numeric
  import opened Media

  const DefaultThresholdMs: real := 50.0
  /** Collection of a stream's times stops once this many are gathered. */
  const MaxTimes: nat := 100

  /** An opened container: its first video stream and first audio stream, when present. */
  datatype Container = Container(video: Option<Stream>, audio: Option<Stream>)

  /** The extra fields of the result dict. */
  datatype Detail =
    | Starts(videoStart: real, audioStart: real)  // both streams had a timed packet
    | NoStream                                     // "No audio or video stream found"
    | Failure                                      // "Could not analyze A/V sync"
    | NotRun                                       // the default result when no segment was analysed

  datatype AvSyncResult = AvSyncResult(detected: bool, driftMs: real, detail: Detail)

  /** The demux loop for one stream: each timed packet's time is appended, and the loop stops at 100. */
  method CollectTimes(s: Stream) returns (times: seq<real>)
    ensures times == Prefix(Timed(s.packets, s.timeBase), MaxTimes)
  {
    var packets, timeBase := s.packets, s.timeBase;
    times := [];
    var i := 0;
    while i < |packets|
      invariant 0 <= i <= |packets|
      invariant times == Timed(packets[..i], timeBase) && |times| < MaxTimes
    {
      assert packets[..i + 1][..i] == packets[..i];
      ghost var added := PacketTime(packets[i], timeBase);
      assert Timed(packets[..i + 1], timeBase) == times + added;
      if packets[i].Some? {
        var pts := packets[i].value as real * timeBase;
        assert |added| == 1 && added[0] == pts;
        times := times + [pts];
      } else {
        assert times + added == times;
      }
      if |times| >= MaxTimes {
        TimedAppend(packets[..i + 1], packets[i + 1..], timeBase);
        assert packets[..i + 1] + packets[i + 1..] == packets;
        return;
      }
      i := i + 1;
    }
    assert packets[..i] == packets;
  }

  /** The times collected from an optional stream: none when the container has no such stream. */
  function Collected(s: Option<Stream>): (times: seq<real>)
    ensures |times| <= MaxTimes
  {
    if s.Some? then Prefix(Timed(s.value.packets, s.value.timeBase), MaxTimes) else []
  }

  /** `abs(video_start - audio_start) * 1000`. */
  function DriftMs(videoStart: real, audioStart: real): real {
    Abs(videoStart - audioStart) * 1000.0
  }

  /** The decision once both lists are collected. */
  function Decide(videoTimes: seq<real>, audioTimes: seq<real>, thresholdMs: real): (r: AvSyncResult)
    ensures (videoTimes == [] || audioTimes == []) ==> r == AvSyncResult(false, 0.0, NoStream)
    ensures videoTimes != [] && audioTimes != [] ==>
      && r.detail == Starts(videoTimes[0], audioTimes[0])
      && r.driftMs == DriftMs(videoTimes[0], audioTimes[0]) >= 0.0
      && (r.detected <==> r.driftMs > thresholdMs)
  {
    if videoTimes == [] || audioTimes == [] then AvSyncResult(false, 0.0, NoStream)
    else
      var drift := DriftMs(videoTimes[0], audioTimes[0]);
      AvSyncResult(drift > thresholdMs, drift, Starts(videoTimes[0], audioTimes[0]))
  }

  /** What `detect_av_sync` reports; `None` stands for a container that could not be opened or read. */
  function AvSyncOf(container: Option<Container>, thresholdMs: real): AvSyncResult {
    match container
    case None => AvSyncResult(false, 0.0, Failure)
    case Some(c) => Decide(Collected(c.video), Collected(c.audio), thresholdMs)
  }

  method DetectAvSync(container: Option<Container>, thresholdMs: real) returns (r: AvSyncResult)
    ensures r == AvSyncOf(container, thresholdMs)
  {
    if container.None? {
      return AvSyncResult(false, 0.0, Failure);
    }
    var c := container.value;
    var videoTimes: seq<real> := [];
    var audioTimes: seq<real> := [];
    if c.video.Some? {
      videoTimes := CollectTimes(c.video.value);
    }
    if c.audio.Some? {
      audioTimes := CollectTimes(c.audio.value);
    }
    if videoTimes == [] || audioTimes == [] {
      return AvSyncResult(false, 0.0, NoStream);
    }
    var videoStart := videoTimes[0];
    var audioStart := audioTimes[0];
    var driftMs := Abs(videoStart - audioStart) * 1000.0;
    r := AvSyncResult(driftMs > thresholdMs, driftMs, Starts(videoStart, audioStart));
  }

  /** Every outcome other than a measured drift reports no drift and no detection. */
  lemma NoMeasurementNoDetection(container: Option<Container>, thresholdMs: real)
    ensures var r := AvSyncOf(container, thresholdMs);
      !r.detail.Starts? ==> !r.detected && r.driftMs == 0.0
    ensures var r := AvSyncOf(container, thresholdMs);
      r.detail.Starts? <==> container.Some? && Collected(container.value.video) != [] && Collected(container.value.audio) != []
  {
  }

  /** The first collected time of a stream is the time of its first timed packet. */
  lemma {:induction false} FirstCollected(packets: seq<Option<int>>, timeBase: real, k: nat)
    requires k < |packets| && packets[k].Some?
    requires forall j :: 0 <= j < k ==> packets[j].None?
    ensures Collected(Some(Stream(packets, timeBase, None))) != []
    ensures Collected(Some(Stream(packets, timeBase, None)))[0] == packets[k].value as real * timeBase
  {
    var all := Timed(packets, timeBase);
    FirstTimed(packets, timeBase, k);
    assert Prefix(all, MaxTimes)[0] == all[0];
  }

  lemma {:induction false} FirstTimed(packets: seq<Option<int>>, timeBase: real, k: nat)
    requires k < |packets| && packets[k].Some?
    requires forall j :: 0 <= j < k ==> packets[j].None?
    ensures Timed(packets, timeBase) != [] && Timed(packets, timeBase)[0] == packets[k].value as real * timeBase
  {
    var after := packets[k..];
    UntimedFrontSkipped(packets, timeBase, k);
    TimedFront(after, timeBase);
    PacketTimeOf(after[0], timeBase);
    var a, t := PacketTime(after[0], timeBase), Timed(after[1..], timeBase);
    assert (a + t)[0] == a[0];
  }

  /** Untimed packets before position `k` contribute nothing. */
  lemma {:induction false} UntimedFrontSkipped(packets: seq<Option<int>>, timeBase: real, k: nat)
    requires k <= |packets|
    requires forall j :: 0 <= j < k ==> packets[j].None?
    ensures Timed(packets, timeBase) == Timed(packets[k..], timeBase)
  {
    if k == 0 {
      assert packets[k..] == packets;
    } else {
      UntimedFrontSkipped(packets, timeBase, k - 1);
      var rest := packets[k - 1..];
      TimedFront(rest, timeBase);
      PacketTimeOf(rest[0], timeBase);
      assert rest[1..] == packets[k..];
      AppendEmpty(PacketTime(rest[0], timeBase), Timed(rest[1..], timeBase));
    }
  }

  lemma AppendEmpty(a: seq<real>, b: seq<real>)
    requires a == []
    ensures a + b == b
  {
  }

  /** The first packet's time, if any, comes first. */
  lemma {:induction false} TimedFront(packets: seq<Option<int>>, timeBase: real)
    requires packets != []
    ensures Timed(packets, timeBase) == PacketTime(packets[0], timeBase) + Timed(packets[1..], timeBase)
  {
    var first := [packets[0]];
    TimedSingle(packets[0], timeBase);
    TimedAppend(first, packets[1..], timeBase);
    assert first + packets[1..] == packets;
  }

  /** Only the first timed packet of each stream matters: packets appended to a stream that already has one change nothing. */
  lemma LaterPacketsIrrelevant(video: Stream, audio: Stream, more: seq<Option<int>>, thresholdMs: real)
    ensures Timed(video.packets, video.timeBase) != [] ==>
      AvSyncOf(Some(Container(Some(video.(packets := video.packets + more)), Some(audio))), thresholdMs)
      == AvSyncOf(Some(Container(Some(video), Some(audio))), thresholdMs)
    ensures Timed(audio.packets, audio.timeBase) != [] ==>
      AvSyncOf(Some(Container(Some(video), Some(audio.(packets := audio.packets + more)))), thresholdMs)
      == AvSyncOf(Some(Container(Some(video), Some(audio))), thresholdMs)
  {
    if Timed(video.packets, video.timeBase) != [] {
      FirstTimeKept(video, more);
    }
    if Timed(audio.packets, audio.timeBase) != [] {
      FirstTimeKept(audio, more);
    }
  }

  /** Appending packets to a stream with a timed packet keeps the first collected time. */
  lemma FirstTimeKept(s: Stream, more: seq<Option<int>>)
    requires Timed(s.packets, s.timeBase) != []
    ensures Collected(Some(s)) != []
    ensures Collected(Some(s.(packets := s.packets + more))) != []
    ensures Collected(Some(s.(packets := s.packets + more)))[0] == Collected(Some(s))[0]
  {
    TimedAppend(s.packets, more, s.timeBase);
    var before := Timed(s.packets, s.timeBase);
    var after := Timed(s.packets + more, s.timeBase);
    assert Prefix(after, MaxTimes)[0] == after[0] == before[0] == Prefix(before, MaxTimes)[0];
  }
}
