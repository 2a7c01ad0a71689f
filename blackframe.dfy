/**
 * Black-frame detection (`detect_black_frame` in python-analyzer/analyzer/blackframe.py):
 * every decoded frame whose mean grey level is below the threshold is recorded with its
 * decode position, its time and its mean.
 */
module BlackFrame {
  import opened Wrappers
  import opened Media

  const DefaultThreshold: real := 16.0
  /** Only the first 20 records are listed. */
  const ListedFrames: nat := 20

  datatype Record = Record(frame: nat, timestamp: real, meanValue: real)

  datatype BlackResult = BlackResult(detected: bool, count: nat, timestamps: seq<Record>)

  predicate IsBlack(f: Frame, threshold: real) {
    f.meanLuma < threshold
  }

  /** The records of the black frames among the first `n` frames. */
  function BlackUpTo(frames: seq<Frame>, n: nat, fps: real, threshold: real): seq<Record>
    requires n <= |frames| && fps > 0.0
  {
    if n == 0 then []
    else
      var k := n - 1;
      BlackUpTo(frames, k, fps, threshold)
        + if IsBlack(frames[k], threshold) then [Record(k, FrameTime(k, fps), frames[k].meanLuma)] else []
  }

  /** The result dict: count and detection over all records, the listing truncated. */
  function Report(records: seq<Record>): (r: BlackResult)
    ensures r.count == |records|
    ensures r.detected <==> r.count > 0
    ensures r.timestamps == records[..if |records| < ListedFrames then |records| else ListedFrames]
  {
    BlackResult(|records| > 0, |records|, Prefix(records, ListedFrames))
  }

  function BlackFrameOf(frames: seq<Frame>, averageRate: Option<NonNegReal>, threshold: real): BlackResult {
    Report(BlackUpTo(frames, |frames|, Fps(averageRate), threshold))
  }

  /** The decode loop of `detect_black_frame`. */
  method DetectBlackFrame(frames: seq<Frame>, averageRate: Option<NonNegReal>, threshold: real) returns (r: BlackResult)
    ensures r == BlackFrameOf(frames, averageRate, threshold)
  {
    var blackFrames: seq<Record> := [];
    var frameCount: nat := 0;
    var fps := Fps(averageRate);
    while frameCount < |frames|
      invariant frameCount <= |frames|
      invariant blackFrames == BlackUpTo(frames, frameCount, fps, threshold)
    {
      var meanVal := frames[frameCount].meanLuma;
      if meanVal < threshold {
        var timestamp := frameCount as real / fps;
        blackFrames := blackFrames + [Record(frameCount, timestamp, meanVal)];
      }
      frameCount := frameCount + 1;
    }
    r := Report(blackFrames);
  }

  /** The number of frames below the threshold among the first `n`. */
  function CountBlack(frames: seq<Frame>, n: nat, threshold: real): nat
    requires n <= |frames|
  {
    if n == 0 then 0 else CountBlack(frames, n - 1, threshold) + if IsBlack(frames[n - 1], threshold) then 1 else 0
  }

  /** Each record is a black frame among the first `n`, at its decode position, time and mean; positions strictly increase. */
  predicate Faithful(records: seq<Record>, frames: seq<Frame>, n: nat, fps: real, threshold: real)
    requires n <= |frames| && fps > 0.0
  {
    && (forall j :: 0 <= j < |records| ==>
          && records[j].frame < n
          && IsBlack(frames[records[j].frame], threshold)
          && records[j].timestamp == FrameTime(records[j].frame, fps)
          && records[j].meanValue == frames[records[j].frame].meanLuma)
    && (forall i, j :: 0 <= i < j < |records| ==> records[i].frame < records[j].frame)
  }

  lemma {:induction false} RecordsFaithful(frames: seq<Frame>, n: nat, fps: real, threshold: real)
    requires n <= |frames| && fps > 0.0
    ensures Faithful(BlackUpTo(frames, n, fps, threshold), frames, n, fps, threshold)
    ensures |BlackUpTo(frames, n, fps, threshold)| == CountBlack(frames, n, threshold)
  {
    if n > 0 {
      RecordsFaithful(frames, n - 1, fps, threshold);
    }
  }

  /** Every black frame is recorded. */
  lemma {:induction false} BlackFramesRecorded(frames: seq<Frame>, n: nat, fps: real, threshold: real, k: nat)
    requires n <= |frames| && fps > 0.0 && k < n
    requires IsBlack(frames[k], threshold)
    ensures exists j :: 0 <= j < |BlackUpTo(frames, n, fps, threshold)| && BlackUpTo(frames, n, fps, threshold)[j].frame == k
  {
    var records := BlackUpTo(frames, n, fps, threshold);
    if k == n - 1 {
      assert records[|records| - 1].frame == k;
    } else {
      BlackFramesRecorded(frames, n - 1, fps, threshold, k);
      var before := BlackUpTo(frames, n - 1, fps, threshold);
      var j :| 0 <= j < |before| && before[j].frame == k;
      assert records[j] == before[j];
    }
  }

  /** A frame is recorded exactly when its mean is below the threshold; the count is not capped at the listing's 20. */
  lemma RecordedIffBlack(frames: seq<Frame>, averageRate: Option<NonNegReal>, threshold: real, k: nat)
    requires k < |frames|
    ensures var records := BlackUpTo(frames, |frames|, Fps(averageRate), threshold);
      (exists j :: 0 <= j < |records| && records[j].frame == k) <==> frames[k].meanLuma < threshold
    ensures BlackFrameOf(frames, averageRate, threshold).count == CountBlack(frames, |frames|, threshold)
  {
    var fps := Fps(averageRate);
    RecordsFaithful(frames, |frames|, fps, threshold);
    if frames[k].meanLuma < threshold {
      BlackFramesRecorded(frames, |frames|, fps, threshold, k);
    }
  }
}
