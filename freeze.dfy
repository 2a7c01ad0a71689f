/**
 * Freeze detection over consecutive decoded frames (`detect_freeze` in
 * python-analyzer/analyzer/freeze.py): a run of frames each similar to its predecessor
 * opens a freeze at its first frame; the next dissimilar frame closes it, and the freeze is
 * reported when it lasted at least `minDuration` seconds.
 */
module Freeze {
  import opened Wrappers
  import opened Media

  const DefaultThreshold: real := 0.98
  const DefaultMinDuration: real := 0.5
  /** Only the first 20 segments are listed. */
  const ListedSegments: nat := 20

  datatype Segment = Segment(start: real, end: real, duration: real)

  /** The detector's state between frames: the open freeze's start time, and the segments so far. */
  datatype Scan = Scan(freezeStart: Option<real>, segments: seq<Segment>)

  datatype FreezeResult = FreezeResult(detected: bool, count: nat, timestamps: seq<Segment>)

  /** `min(correlation, 1.0) >= threshold`. */
  predicate Similar(correlation: real, threshold: real) {
    (if correlation < 1.0 then correlation else 1.0) >= threshold
  }

  /** The frame at position `k` is compared with its predecessor: it is not the first and has the same shape. */
  predicate Compared(frames: seq<Frame>, k: nat)
    requires k < |frames|
  {
    k > 0 && frames[k].Shape() == frames[k - 1].Shape()
  }

  /** The effect of the frame at decode position `k` on the scan. */
  function Step(st: Scan, frames: seq<Frame>, k: nat, fps: real, threshold: real, minDuration: real): Scan
    requires k < |frames| && fps > 0.0
  {
    if !Compared(frames, k) then st
    else if Similar(frames[k].correlation, threshold) then
      if st.freezeStart.None? then st.(freezeStart := Some(FrameTime(k, fps))) else st
    else if st.freezeStart.Some? then
      var start := st.freezeStart.value;
      var end := FrameTime(k, fps);
      Scan(None, if end - start >= minDuration then st.segments + [Segment(start, end, end - start)] else st.segments)
    else st
  }

  /** The scan after the first `n` frames. */
  function ScanUpTo(frames: seq<Frame>, n: nat, fps: real, threshold: real, minDuration: real): Scan
    requires n <= |frames| && fps > 0.0
  {
    if n == 0 then Scan(None, [])
    else Step(ScanUpTo(frames, n - 1, fps, threshold, minDuration), frames, n - 1, fps, threshold, minDuration)
  }

  /** The result dict: count and detection over all segments, the listing truncated. */
  function Report(segments: seq<Segment>): (r: FreezeResult)
    ensures r.count == |segments|
    ensures r.detected <==> r.count > 0
    ensures r.timestamps == segments[..if |segments| < ListedSegments then |segments| else ListedSegments]
  {
    FreezeResult(|segments| > 0, |segments|, Prefix(segments, ListedSegments))
  }

  function FreezeOf(frames: seq<Frame>, averageRate: Option<NonNegReal>, threshold: real, minDuration: real): FreezeResult {
    Report(ScanUpTo(frames, |frames|, Fps(averageRate), threshold, minDuration).segments)
  }

  /** The decode loop of `detect_freeze`. */
  method DetectFreeze(frames: seq<Frame>, averageRate: Option<NonNegReal>, threshold: real, minDuration: real)
    returns (r: FreezeResult)
    ensures r == FreezeOf(frames, averageRate, threshold, minDuration)
  {
    var frozenSegments: seq<Segment> := [];
    var freezeStart: Option<real> := None;
    var prevFrame: Option<Frame> := None;
    var frameCount: nat := 0;
    var fps := Fps(averageRate);
    while frameCount < |frames|
      invariant frameCount <= |frames|
      invariant Scan(freezeStart, frozenSegments) == ScanUpTo(frames, frameCount, fps, threshold, minDuration)
      invariant prevFrame == if frameCount == 0 then None else Some(frames[frameCount - 1])
    {
      var current := frames[frameCount];
      if prevFrame.Some? {
        if current.Shape() == prevFrame.value.Shape() {
          var similarity := if current.correlation < 1.0 then current.correlation else 1.0;
          if similarity >= threshold {
            if freezeStart.None? {
              freezeStart := Some(frameCount as real / fps);
            }
          } else {
            if freezeStart.Some? {
              var freezeEnd := frameCount as real / fps;
              if freezeEnd - freezeStart.value >= minDuration {
                frozenSegments := frozenSegments + [Segment(freezeStart.value, freezeEnd, freezeEnd - freezeStart.value)];
              }
              freezeStart := None;
            }
          }
        }
      }
      prevFrame := Some(current);
      frameCount := frameCount + 1;
    }
    r := Report(frozenSegments);
  }

  /** Segments in time order, each of positive length and each starting after the previous one ended. */
  predicate Ordered(segments: seq<Segment>) {
    forall i :: 0 <= i < |segments| ==>
      segments[i].start < segments[i].end && (i > 0 ==> segments[i - 1].end < segments[i].start)
  }

  /** What holds of the scan after `n` frames: the segments are ordered and end before frame `n`; an open freeze started after the last segment and before frame `n`. */
  predicate ScanInvariant(st: Scan, n: nat, fps: real)
    requires fps > 0.0
  {
    && Ordered(st.segments)
    && (forall i :: 0 <= i < |st.segments| ==> st.segments[i].end < FrameTime(n, fps))
    && (st.freezeStart.Some? ==> st.freezeStart.value < FrameTime(n, fps))
    && (st.freezeStart.Some? && st.segments != [] ==> st.segments[|st.segments| - 1].end < st.freezeStart.value)
  }

  lemma {:induction false} ScanKeepsInvariant(frames: seq<Frame>, n: nat, fps: real, threshold: real, minDuration: real)
    requires n <= |frames| && fps > 0.0
    ensures ScanInvariant(ScanUpTo(frames, n, fps, threshold, minDuration), n, fps)
  {
    if n > 0 {
      var k := n - 1;
      ScanKeepsInvariant(frames, k, fps, threshold, minDuration);
      StepKeepsInvariant(ScanUpTo(frames, k, fps, threshold, minDuration), frames, k, fps, threshold, minDuration);
    }
  }

  /** One frame's step keeps the invariant, moving it from frame `k` to frame `k + 1`. */
  lemma StepKeepsInvariant(st: Scan, frames: seq<Frame>, k: nat, fps: real, threshold: real, minDuration: real)
    requires k < |frames| && fps > 0.0 && ScanInvariant(st, k, fps)
    ensures ScanInvariant(Step(st, frames, k, fps, threshold, minDuration), k + 1, fps)
  {
    var now, bound := FrameTime(k, fps), FrameTime(k + 1, fps);
    FrameTimeIncreasing(k, k + 1, fps);
    var next := Step(st, frames, k, fps, threshold, minDuration);
    if !Compared(frames, k) {
      assert next == st;
      LaterBound(st, now, bound);
    } else if Similar(frames[k].correlation, threshold) {
      if st.freezeStart.None? {
        assert next == st.(freezeStart := Some(now));
      } else {
        assert next == st;
      }
      LaterBound(st, now, bound);
    } else if st.freezeStart.Some? {
      var start := st.freezeStart.value;
      if now - start >= minDuration {
        assert next == Scan(None, st.segments + [Segment(start, now, now - start)]);
        ClosedFreezeKeepsOrder(st.segments, start, now, bound);
      } else {
        assert next == Scan(None, st.segments);
        LaterBound(st, now, bound);
      }
    } else {
      assert next == st;
      LaterBound(st, now, bound);
    }
  }

  /** Every segment ending before `now` ends before any later `bound`. */
  lemma LaterBound(st: Scan, now: real, bound: real)
    requires now < bound && forall i :: 0 <= i < |st.segments| ==> st.segments[i].end < now
    ensures forall i :: 0 <= i < |st.segments| ==> st.segments[i].end < bound
  {
  }

  /** Appending a freeze that opened after the last segment and closed before `bound` keeps the segments ordered and before `bound`. */
  lemma ClosedFreezeKeepsOrder(segments: seq<Segment>, start: real, end: real, bound: real)
    requires Ordered(segments) && start < end < bound
    requires forall i :: 0 <= i < |segments| ==> segments[i].end < end
    requires segments != [] ==> segments[|segments| - 1].end < start
    ensures var s := segments + [Segment(start, end, end - start)];
      Ordered(s) && forall i :: 0 <= i < |s| ==> s[i].end < bound
  {
  }

  /** Reported freezes are in time order and never overlap. */
  lemma SegmentsOrdered(frames: seq<Frame>, averageRate: Option<NonNegReal>, threshold: real, minDuration: real)
    ensures Ordered(ScanUpTo(frames, |frames|, Fps(averageRate), threshold, minDuration).segments)
  {
    ScanKeepsInvariant(frames, |frames|, Fps(averageRate), threshold, minDuration);
  }

  /** Each segment lasted at least `minDuration`, and its duration is its end minus its start. */
  predicate LongEnough(segments: seq<Segment>, minDuration: real) {
    forall i :: 0 <= i < |segments| ==> segments[i].duration == segments[i].end - segments[i].start >= minDuration
  }

  /** Every reported freeze lasted at least `minDuration`. */
  lemma {:induction false} SegmentsLongEnough(frames: seq<Frame>, n: nat, fps: real, threshold: real, minDuration: real)
    requires n <= |frames| && fps > 0.0
    ensures LongEnough(ScanUpTo(frames, n, fps, threshold, minDuration).segments, minDuration)
  {
    if n > 0 {
      SegmentsLongEnough(frames, n - 1, fps, threshold, minDuration);
      var before := ScanUpTo(frames, n - 1, fps, threshold, minDuration).segments;
      var after := ScanUpTo(frames, n, fps, threshold, minDuration).segments;
      assert after == before || (|after| == |before| + 1 && after[..|before|] == before
        && after[|before|].duration == after[|before|].end - after[|before|].start >= minDuration);
      forall i | 0 <= i < |after| ensures after[i].duration == after[i].end - after[i].start >= minDuration {
        if after == before {
          assert before[i] == after[i];
        } else if i < |before| {
          assert after[i] == after[..|before|][i] == before[i];
        }
      }
    }
  }

  /** A freeze starts only at the first similar frame of a run: an open freeze keeps its start, and a new one starts at the current frame. */
  lemma StepStart(st: Scan, frames: seq<Frame>, k: nat, fps: real, threshold: real, minDuration: real)
    requires k < |frames| && fps > 0.0
    ensures var next := Step(st, frames, k, fps, threshold, minDuration);
      && (st.freezeStart.Some? && next.freezeStart.Some? ==> next.freezeStart == st.freezeStart)
      && (st.freezeStart.None? && next.freezeStart.Some? <==>
            st.freezeStart.None? && Compared(frames, k) && Similar(frames[k].correlation, threshold))
      && (st.freezeStart.None? && next.freezeStart.Some? ==> next.freezeStart == Some(FrameTime(k, fps)))
  {
  }

  /**
   * A segment is emitted exactly when a compared, dissimilar frame closes an open freeze
   * that lasted at least `minDuration`; every such closing frame clears the open freeze,
   * emitted or not; and nothing else ever changes the segments.
   */
  lemma StepEmits(st: Scan, frames: seq<Frame>, k: nat, fps: real, threshold: real, minDuration: real)
    requires k < |frames| && fps > 0.0
    ensures var next := Step(st, frames, k, fps, threshold, minDuration);
      var closes := Compared(frames, k) && !Similar(frames[k].correlation, threshold) && st.freezeStart.Some?;
      && (closes ==> next.freezeStart.None?)
      && ((closes && FrameTime(k, fps) - st.freezeStart.value >= minDuration)
            ==> next.segments == st.segments + [Segment(st.freezeStart.value, FrameTime(k, fps), FrameTime(k, fps) - st.freezeStart.value)])
      && (!(closes && FrameTime(k, fps) - st.freezeStart.value >= minDuration) ==> next.segments == st.segments)
  {
  }

  /** The first frame, and any frame whose shape differs from its predecessor's, leaves the scan as it was. */
  lemma UncomparedFrameIgnored(st: Scan, frames: seq<Frame>, k: nat, fps: real, threshold: real, minDuration: real)
    requires k < |frames| && fps > 0.0
    requires k == 0 || frames[k].Shape() != frames[k - 1].Shape()
    ensures Step(st, frames, k, fps, threshold, minDuration) == st
  {
  }

  /** The scan of a prefix does not depend on the frames after it. */
  lemma {:induction false} ScanPrefix(frames: seq<Frame>, more: seq<Frame>, n: nat, fps: real, threshold: real, minDuration: real)
    requires n <= |frames| && fps > 0.0
    ensures ScanUpTo(frames + more, n, fps, threshold, minDuration) == ScanUpTo(frames, n, fps, threshold, minDuration)
  {
    if n > 0 {
      ScanPrefix(frames, more, n - 1, fps, threshold, minDuration);
      assert (frames + more)[n - 1] == frames[n - 1];
      if n >= 2 {
        assert (frames + more)[n - 2] == frames[n - 2];
      }
    }
  }

  /** A freeze still running when the frames run out is never reported: one more frozen frame changes no report. */
  lemma OpenFreezeUnreported(frames: seq<Frame>, f: Frame, averageRate: Option<NonNegReal>, threshold: real, minDuration: real)
    requires frames != [] && f.Shape() == frames[|frames| - 1].Shape()
    requires Similar(f.correlation, threshold)
    ensures FreezeOf(frames + [f], averageRate, threshold, minDuration) == FreezeOf(frames, averageRate, threshold, minDuration)
  {
    var fps := Fps(averageRate);
    ScanPrefix(frames, [f], |frames|, fps, threshold, minDuration);
    assert (frames + [f])[|frames|] == f;
    assert (frames + [f])[|frames| - 1] == frames[|frames| - 1];
  }
}
