/**
 * Frame-loss estimation from gaps between consecutive video presentation times
 * (`analyze_metrics` in python-analyzer/analyzer/metrics.py).
 */
module Metrics {
  import opened Wrappers
  import opened Media

  /** The factor of the nominal frame interval beyond which a gap counts as loss. */
  const GapTolerance: real := 1.5

  /**
   * Frames one gap stands for: none up to 1.5 intervals (a reordered, negative gap
   * included); otherwise the whole intervals the gap spans, less one, and at least one.
   * Python's `int()` truncates toward zero; the quotient is positive here, so that is `Floor`.
   */
  function GapLoss(gap: real, interval: real): nat
    requires interval > 0.0
  {
    if gap > interval * GapTolerance then
      var estimated := (gap / interval).Floor - 1;
      if estimated > 1 then estimated else 1
    else 0
  }

  /**
   * A gap within tolerance (a negative one included) adds nothing; a gap beyond it adds at
   * least one frame, exactly one below three intervals, and from two intervals on the
   * number of whole intervals it spans, less one.
   */
  lemma GapLossBounds(gap: real, interval: real)
    requires interval > 0.0
    ensures GapLoss(gap, interval) == 0 <==> gap <= interval * GapTolerance
    ensures interval * GapTolerance < gap < interval * 3.0 ==> GapLoss(gap, interval) == 1
    ensures var n := GapLoss(gap, interval);
      gap >= interval * 2.0 ==> (n + 1) as real * interval <= gap < (n + 2) as real * interval
  {
    GapLossCases(gap, interval);
    QuotientFacts(gap, interval);
    var whole := (gap / interval).Floor;
    if gap >= interval * 2.0 {
      assert gap > interval * 1.5;
      assert GapLoss(gap, interval) + 1 == whole;
    }
  }

  /** How the whole number of intervals in a gap relates to the gap itself. */
  lemma QuotientFacts(gap: real, interval: real)
    requires interval > 0.0
    ensures var whole := (gap / interval).Floor;
      && whole as real * interval <= gap < (whole + 1) as real * interval
      && (gap < interval * 3.0 ==> whole <= 2)
      && (gap >= interval * 2.0 ==> whole >= 2)
  {
    var q := gap / interval;
    var whole := q.Floor;
    QuotientBounds(gap, interval);
    QuotientTimes(gap, interval);
    if gap < interval * 3.0 {
      Scale(3.0, q, interval);
      assert q < 3.0;
    }
    if gap >= interval * 2.0 {
      Scale(2.0, q, interval);
      assert 2.0 <= q;
    }
  }

  /** The whole number of intervals in a gap brackets it. */
  lemma QuotientBounds(gap: real, interval: real)
    requires interval > 0.0
    ensures var whole := (gap / interval).Floor;
      whole as real * interval <= gap < (whole + 1) as real * interval
  {
    var q := gap / interval;
    var whole := q.Floor;
    var next := (whole + 1) as real;
    QuotientTimes(gap, interval);
    assert whole as real <= q;
    assert q < next;
    Scale(whole as real, q, interval);
    Scale(q, next, interval);
    assert q * interval < next * interval;
    assert gap < next * interval;
  }

  lemma QuotientTimes(gap: real, interval: real)
    requires interval > 0.0
    ensures (gap / interval) * interval == gap
    ensures 3.0 * interval == interval * 3.0 && 2.0 * interval == interval * 2.0
  {
  }

  /** Multiplying by a positive factor keeps order. */
  lemma Scale(a: real, b: real, c: real)
    requires c > 0.0
    ensures a <= b <==> a * c <= b * c
    ensures a < b <==> a * c < b * c
  {
    Distribute(b, a, c);
    if a < b {
      PositiveProduct(b - a, c);
    } else if b < a {
      PositiveProduct(a - b, c);
      Distribute(a, b, c);
    }
  }

  lemma Distribute(a: real, b: real, c: real)
    ensures a * c - b * c == (a - b) * c
  {
  }

  lemma PositiveProduct(x: real, y: real)
    requires x > 0.0 && y > 0.0
    ensures x * y > 0.0
  {
  }

  /** Frames estimated lost over a run of presentation times: the loss of each consecutive gap. */
  function DroppedIn(times: seq<real>, interval: real): nat
    requires interval > 0.0
  {
    if |times| < 2 then 0
    else DroppedIn(times[..|times| - 1], interval) + GapLoss(times[|times| - 1] - times[|times| - 2], interval)
  }

  /** The `lossFrame` result; `dropRate` is absent from the default result of python-analyzer/main.py. */
  datatype LossResult = LossResult(detected: bool, dropped: nat, total: nat, dropRate: Option<real>)

  /** The result dict built from the two counters; `dropRate` is a percentage (rounding not modelled). */
  function LossReport(dropped: nat, total: nat): (r: LossResult)
    ensures r.detected <==> dropped > 0
    ensures r.dropped == dropped && r.total == total
    ensures r.dropRate.Some? && r.dropRate.value >= 0.0
    ensures total == 0 ==> r.dropRate.value == dropped as real * 100.0
    ensures total > 0 ==> r.dropRate.value * total as real == dropped as real * 100.0
  {
    var divisor := if total > 1 then total else 1;
    LossResult(dropped > 0, dropped, total, Some(dropped as real / divisor as real * 100.0))
  }

  /** What `analyze_metrics` reports for a video stream (`None`: no container or no video stream). */
  function MetricsOf(video: Option<Stream>): LossResult {
    match video
    case None => LossReport(0, 0)
    case Some(s) =>
      var times := Timed(s.packets, s.timeBase);
      LossReport(DroppedIn(times, 1.0 / Fps(s.averageRate)), |times|)
  }

  function Last(s: seq<real>): Option<real> {
    if s == [] then None else Some(s[|s| - 1])
  }

  lemma ReciprocalPositive(x: real)
    requires x > 0.0
    ensures 1.0 / x > 0.0
  {
  }

  /** The two branches of the estimate, as the loop takes them. */
  lemma GapLossCases(gap: real, interval: real)
    requires interval > 0.0
    ensures gap <= interval * 1.5 ==> GapLoss(gap, interval) == 0
    ensures gap > interval * 1.5 ==> var estimated := (gap / interval).Floor - 1;
      GapLoss(gap, interval) == if estimated > 1 then estimated else 1
  {
  }

  /** One more presentation time: it becomes the last, and its gap to the previous one, if any, adds its loss. */
  lemma DroppedStep(seen: seq<real>, t: real, interval: real)
    requires interval > 0.0
    ensures Last(seen + [t]) == Some(t) && |seen + [t]| == |seen| + 1
    ensures DroppedIn(seen + [t], interval)
         == DroppedIn(seen, interval) + if seen == [] then 0 else GapLoss(t - seen[|seen| - 1], interval)
  {
    var now := seen + [t];
    assert now[..|now| - 1] == seen;
  }

  /** The packet loop of `analyze_metrics`: counts timed packets and accumulates the loss of each gap. */
  method AnalyzeMetrics(video: Option<Stream>) returns (r: LossResult)
    ensures r == MetricsOf(video)
  {
    var totalFrames: nat := 0;
    var droppedFrames: nat := 0;
    var prevPts: Option<real> := None;
    if video.Some? {
      var packets := video.value.packets;
      var timeBase := video.value.timeBase;
      var expectedInterval := 1.0 / Fps(video.value.averageRate);
      ReciprocalPositive(Fps(video.value.averageRate));
      var i := 0;
      ghost var times: seq<real> := [];
      while i < |packets|
        invariant 0 <= i <= |packets|
        invariant times == Timed(packets[..i], timeBase)
        invariant totalFrames == |times| && prevPts == Last(times)
        invariant droppedFrames == DroppedIn(times, expectedInterval)
      {
        TimedStep(packets, i, timeBase);
        if packets[i].Some? {
          var currentPts := packets[i].value as real * timeBase;
          DroppedStep(times, currentPts, expectedInterval);
          totalFrames := totalFrames + 1;
          if prevPts.Some? {
            var gap := currentPts - prevPts.value;
            assert gap == currentPts - times[|times| - 1];
            GapLossCases(gap, expectedInterval);
            if gap > expectedInterval * 1.5 {
              var estimatedDropped := (gap / expectedInterval).Floor - 1;
              droppedFrames := droppedFrames + if estimatedDropped > 1 then estimatedDropped else 1;
            }
            assert droppedFrames == DroppedIn(times, expectedInterval) + GapLoss(gap, expectedInterval);
          }
          prevPts := Some(currentPts);
          times := times + [currentPts];
        }
        i := i + 1;
      }
      assert packets[..i] == packets;
    }
    r := LossReport(droppedFrames, totalFrames);
  }

  /** Packets without a PTS neither count nor interrupt a gap: removing one changes nothing. */
  lemma UntimedPacketsIgnored(before: seq<Option<int>>, after: seq<Option<int>>, timeBase: real, averageRate: Option<NonNegReal>)
    ensures MetricsOf(Some(Stream(before + [None] + after, timeBase, averageRate)))
         == MetricsOf(Some(Stream(before + after, timeBase, averageRate)))
  {
    TimedSkipsUntimed(before, after, timeBase);
  }

  /** The total is the number of packets that carry a PTS. */
  lemma TotalCountsTimedPackets(video: Stream)
    ensures MetricsOf(Some(video)).total == CountTimed(video.packets)
  {
    TimedLength(video.packets, video.timeBase);
  }

  /** The estimate only grows as presentation times arrive: a prefix never reports more. */
  lemma {:induction false} DroppedMonotone(times: seq<real>, k: nat, interval: real)
    requires interval > 0.0 && k <= |times|
    ensures DroppedIn(times[..k], interval) <= DroppedIn(times, interval)
  {
    if k < |times| {
      DroppedMonotone(times[..|times| - 1], k, interval);
      assert times[..|times| - 1][..k] == times[..k];
    } else {
      assert times[..k] == times;
    }
  }

  /** Only gaps matter: shifting every presentation time by the same offset changes no estimate, so the first timed packet adds nothing whatever its time. */
  lemma {:induction false} DroppedShiftInvariant(times: seq<real>, offset: real, interval: real)
    requires interval > 0.0
    ensures DroppedIn(seq(|times|, i requires 0 <= i < |times| => times[i] + offset), interval) == DroppedIn(times, interval)
  {
    var shifted := seq(|times|, i requires 0 <= i < |times| => times[i] + offset);
    if |times| >= 2 {
      var front := times[..|times| - 1];
      DroppedShiftInvariant(front, offset, interval);
      assert shifted[..|shifted| - 1] == seq(|front|, i requires 0 <= i < |front| => front[i] + offset);
      assert shifted[|times| - 1] - shifted[|times| - 2] == times[|times| - 1] - times[|times| - 2];
    }
  }

  /** A stream whose consecutive gaps all stay within tolerance reports no loss. */
  lemma {:induction false} RegularStreamNoLoss(times: seq<real>, interval: real)
    requires interval > 0.0
    requires forall i :: 1 <= i < |times| ==> times[i] - times[i - 1] <= interval * GapTolerance
    ensures DroppedIn(times, interval) == 0
  {
    if |times| >= 2 {
      RegularStreamNoLoss(times[..|times| - 1], interval);
    }
  }

  /** Each gap beyond tolerance adds at least one frame, so the estimate bounds the number of such gaps. */
  lemma {:induction false} LateGapsBoundLoss(times: seq<real>, interval: real)
    requires interval > 0.0
    ensures DroppedIn(times, interval) >= LateGaps(times, interval)
  {
    if |times| >= 2 {
      LateGapsBoundLoss(times[..|times| - 1], interval);
    }
  }

  /** The number of consecutive gaps exceeding 1.5 intervals. */
  function LateGaps(times: seq<real>, interval: real): nat {
    if |times| < 2 then 0
    else
      var late := if times[|times| - 1] - times[|times| - 2] > interval * GapTolerance then 1 else 0;
      LateGaps(times[..|times| - 1], interval) + late
  }
}
