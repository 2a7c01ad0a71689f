/**
 * The decoded media the offline detectors read, with decoding itself abstracted away.
 * A container's video or audio stream is its packets' presentation timestamps (PTS, in
 * time-base units, `None` for a packet without one), its time base in seconds and its
 * average frame rate. A decoded video frame is its grey-level pixel rows together with the
 * three figures the detectors obtain from numerical libraries: the mean grey level, the mean
 * Sobel edge magnitude, and the correlation with the previously decoded frame.
 * Sequences hold what was decoded before any decoding error: every detector catches
 * exceptions and reports on what it had gathered.
 */
module Media {
  import opened Wrappers

  type NonNegReal = r: real | 0.0 <= r

  datatype Stream = Stream(packets: seq<Option<int>>, timeBase: real, averageRate: Option<NonNegReal>)

  datatype Frame = Frame(width: nat, rows: seq<seq<int>>, meanLuma: real, meanEdge: real, correlation: real) {
    /** Every row is `width` pixels wide, as in a decoded two-dimensional image. */
    predicate WellFormed() {
      forall y :: 0 <= y < |rows| ==> |rows[y]| == width
    }

    function Height(): nat {
      |rows|
    }

    function Shape(): (nat, nat) {
      (|rows|, width)
    }
  }

  /** A decoded frame: a rectangular array of pixels. */
  type Picture = f: Frame | f.WellFormed() witness Frame(0, [], 0.0, 0.0, 0.0)

  const DefaultFps: real := 30.0

  /** `float(stream.average_rate) if stream.average_rate else 30`: a missing or zero rate means 30. */
  function Fps(averageRate: Option<NonNegReal>): (fps: real)
    ensures fps > 0.0
    ensures averageRate.Some? && averageRate.value != 0.0 ==> fps == averageRate.value
    ensures averageRate.None? || averageRate.value == 0.0 ==> fps == DefaultFps
  {
    if averageRate.Some? && averageRate.value != 0.0 then averageRate.value else DefaultFps
  }

  /** The presentation times in seconds (`packet.pts * time_base`) of the packets that carry a PTS, in order. */
  function Timed(packets: seq<Option<int>>, timeBase: real): seq<real> {
    if packets == [] then []
    else Timed(packets[..|packets| - 1], timeBase) + PacketTime(packets[|packets| - 1], timeBase)
  }

  /** The presentation time of one packet, as a list of zero or one element. */
  function PacketTime(pts: Option<int>, timeBase: real): seq<real> {
    if pts.Some? then [pts.value as real * timeBase] else []
  }

  /** One packet's contribution, element by element. */
  lemma PacketTimeOf(pts: Option<int>, timeBase: real)
    ensures pts.None? ==> PacketTime(pts, timeBase) == []
    ensures pts.Some? ==> |PacketTime(pts, timeBase)| == 1 && PacketTime(pts, timeBase)[0] == pts.value as real * timeBase
    ensures pts.Some? ==> PacketTime(pts, timeBase) == [pts.value as real * timeBase]
  {
    if pts.Some? {
      var t := PacketTime(pts, timeBase);
      assert |t| == 1 && t[0] == pts.value as real * timeBase;
    }
  }

  lemma {:induction false} TimedAppend(a: seq<Option<int>>, b: seq<Option<int>>, timeBase: real)
    ensures Timed(a + b, timeBase) == Timed(a, timeBase) + Timed(b, timeBase)
    decreases |b|
  {
    if b == [] {
      assert a + b == a;
    } else {
      TimedAppend(a, b[..|b| - 1], timeBase);
      assert (a + b)[..|a + b| - 1] == a + b[..|b| - 1];
      assert (a + b)[|a + b| - 1] == b[|b| - 1];
    }
  }

  /** The times of one more packet: those of the packets before, then its own. */
  lemma TimedStep(packets: seq<Option<int>>, i: nat, timeBase: real)
    requires i < |packets|
    ensures Timed(packets[..i + 1], timeBase) == Timed(packets[..i], timeBase) + PacketTime(packets[i], timeBase)
    ensures packets[i].None? ==> Timed(packets[..i + 1], timeBase) == Timed(packets[..i], timeBase)
    ensures packets[i].Some? ==> Timed(packets[..i + 1], timeBase) == Timed(packets[..i], timeBase) + [packets[i].value as real * timeBase]
  {
    assert packets[..i + 1][..i] == packets[..i];
    PacketTimeOf(packets[i], timeBase);
    if packets[i].None? {
      assert Timed(packets[..i], timeBase) + [] == Timed(packets[..i], timeBase);
    }
  }

  /** A one-packet stream's times are that packet's time. */
  lemma TimedSingle(p: Option<int>, timeBase: real)
    ensures Timed([p], timeBase) == PacketTime(p, timeBase)
  {
    assert [p][..0] == [];
  }

  /** A packet without a PTS contributes no presentation time. */
  lemma TimedSkipsUntimed(a: seq<Option<int>>, b: seq<Option<int>>, timeBase: real)
    ensures Timed(a + [None] + b, timeBase) == Timed(a + b, timeBase)
  {
    var none: seq<Option<int>> := [None];
    TimedSingle(None, timeBase);
    TimedAppend(a, none, timeBase);
    assert Timed(a + none, timeBase) == Timed(a, timeBase);
    TimedAppend(a + none, b, timeBase);
    TimedAppend(a, b, timeBase);
  }

  /** The number of timed packets is the number of packets that carry a PTS. */
  function CountTimed(packets: seq<Option<int>>): nat {
    if packets == [] then 0
    else CountTimed(packets[..|packets| - 1]) + if packets[|packets| - 1].Some? then 1 else 0
  }

  lemma {:induction false} TimedLength(packets: seq<Option<int>>, timeBase: real)
    ensures |Timed(packets, timeBase)| == CountTimed(packets)
  {
    if packets != [] {
      TimedLength(packets[..|packets| - 1], timeBase);
    }
  }

  /** `frame_count / fps`: the time of the frame at decode position `index`. */
  function FrameTime(index: nat, fps: real): real
    requires fps > 0.0
  {
    index as real / fps
  }

  lemma FrameTimeIncreasing(i: nat, j: nat, fps: real)
    requires fps > 0.0 && i < j
    ensures FrameTime(i, fps) < FrameTime(j, fps)
  {
    assert FrameTime(j, fps) - FrameTime(i, fps) == (j - i) as real / fps;
  }
}
