/**
 * Mosaic (blocking) detection (`detect_mosaic` in python-analyzer/analyzer/mosaic.py).
 * A frame with strong edges is scored by comparing the two pixel rows on each side of every
 * horizontal 8- and 16-pixel block boundary; a frame whose average boundary difference
 * exceeds 20 is recorded. The Sobel edge magnitude is an input of the frame.
 */
module Mosaic {
  import opened Wrappers
  import opened Numeric
  import opened Media

  const DefaultEdgeThreshold: real := 50.0
  /** The block sizes scanned, in order. */
  const BlockSizes: seq<nat> := [8, 16]
  /** A frame is recorded when its average block score exceeds this. */
  const ScoreThreshold: real := 20.0
  /** Only the first 20 records are listed. */
  const ListedFrames: nat := 20

  datatype Record = Record(frame: nat, timestamp: real, blockScore: real)

  datatype MosaicResult = MosaicResult(detected: bool, count: nat, timestamps: seq<Record>)

  /** The absolute differences of two rows, pixel by pixel. */
  function AbsDiffs(a: seq<int>, b: seq<int>): (d: seq<real>)
    requires |a| == |b|
    ensures |d| == |a|
  {
    seq(|a|, x requires 0 <= x < |a| => Abs((a[x] - b[x]) as real))
  }

  /** `np.mean(np.abs(a - b))`: the mean absolute difference of two rows of equal, non-zero width. */
  function RowDiff(a: seq<int>, b: seq<int>): (r: real)
    requires |a| == |b| > 0
  {
    Mean(AbsDiffs(a, b))
  }

  /** The score of one boundary: row `y + bs - 1` against row `min(y + bs, h - 1)`. */
  function BlockScore(f: Frame, bs: nat, y: nat): (s: real)
    requires f.WellFormed() && 0 < bs <= f.width && y + bs < f.Height()
    ensures s == RowDiff(f.rows[y + bs - 1], f.rows[y + bs])
  {
    var h := f.Height();
    RowDiff(f.rows[y + bs - 1], f.rows[if y + bs < h - 1 then y + bs else h - 1])
  }

  /** `range(y, h - bs, bs)`: the rows from `y` on, `bs` apart, strictly below `h - bs`. */
  function BoundaryRows(h: nat, bs: nat, y: nat): seq<nat>
    requires bs > 0
    decreases h - y
  {
    if y + bs < h then [y] + BoundaryRows(h, bs, y + bs) else []
  }

  /** The scores of the boundaries at the rows of `range(y, h - bs, bs)`, in order. */
  function ScoresFrom(f: Frame, bs: nat, y: nat): seq<real>
    requires f.WellFormed() && 0 < bs <= f.width
    decreases f.Height() - y
  {
    if y + bs < f.Height() then [BlockScore(f, bs, y)] + ScoresFrom(f, bs, y + bs) else []
  }

  /** The scores for one block size: none unless the frame is at least `bs` tall and wide. */
  function SizeScores(f: Frame, bs: nat): seq<real>
    requires f.WellFormed() && bs > 0
  {
    if f.Height() >= bs && f.width >= bs then ScoresFrom(f, bs, 0) else []
  }

  /** The scores for a list of block sizes, in order. */
  function ScoresOfSizes(f: Frame, sizes: seq<nat>): seq<real>
    requires f.WellFormed() && forall i :: 0 <= i < |sizes| ==> sizes[i] > 0
  {
    if sizes == [] then [] else ScoresOfSizes(f, sizes[..|sizes| - 1]) + SizeScores(f, sizes[|sizes| - 1])
  }

  function BlockScores(f: Frame): seq<real>
    requires f.WellFormed()
  {
    ScoresOfSizes(f, BlockSizes)
  }

  /** `np.mean(block_scores) if block_scores else 0`. */
  function AverageScore(scores: seq<real>): real {
    if scores == [] then 0.0 else Mean(scores)
  }

  /** Whether a frame is recorded: strong edges first, then a high average block score. */
  predicate Flagged(f: Frame, edgeThreshold: real)
    requires f.WellFormed()
  {
    f.meanEdge > edgeThreshold && AverageScore(BlockScores(f)) > ScoreThreshold
  }

  /** The row loop of `detect_mosaic` for one block size. */
  method ScoreSize(f: Frame, bs: nat) returns (scores: seq<real>)
    requires f.WellFormed() && bs > 0
    ensures scores == SizeScores(f, bs)
  {
    var h, w := f.Height(), f.width;
    scores := [];
    if h >= bs && w >= bs {
      var y: nat := 0;
      while y < h - bs
        invariant scores + ScoresFrom(f, bs, y) == SizeScores(f, bs)
        decreases h - y
      {
        var rowDiff := RowDiff(f.rows[y + bs - 1], f.rows[if y + bs < h - 1 then y + bs else h - 1]);
        ghost var rest := ScoresFrom(f, bs, y + bs);
        assert ScoresFrom(f, bs, y) == [rowDiff] + rest;
        assert scores + [rowDiff] + rest == scores + ([rowDiff] + rest);
        scores := scores + [rowDiff];
        y := y + bs;
      }
    }
  }

  /** The block-size loop of `detect_mosaic`. */
  method ScoreBlocks(f: Frame) returns (blockScores: seq<real>)
    requires f.WellFormed()
    ensures blockScores == BlockScores(f)
  {
    blockScores := [];
    var j := 0;
    while j < |BlockSizes|
      invariant 0 <= j <= |BlockSizes|
      invariant blockScores == ScoresOfSizes(f, BlockSizes[..j])
    {
      assert BlockSizes[..j + 1][..j] == BlockSizes[..j];
      var scores := ScoreSize(f, BlockSizes[j]);
      blockScores := blockScores + scores;
      j := j + 1;
    }
    assert BlockSizes[..j] == BlockSizes;
  }

  /** The records of the flagged frames among the first `n`. */
  function MosaicUpTo(frames: seq<Frame>, n: nat, fps: real, edgeThreshold: real): seq<Record>
    requires n <= |frames| && fps > 0.0
    requires forall k :: 0 <= k < |frames| ==> frames[k].WellFormed()
  {
    if n == 0 then []
    else
      var k := n - 1;
      MosaicUpTo(frames, k, fps, edgeThreshold)
        + if Flagged(frames[k], edgeThreshold) then [Record(k, FrameTime(k, fps), AverageScore(BlockScores(frames[k])))] else []
  }

  /** The result dict: count and detection over all records, the listing truncated. */
  function Report(records: seq<Record>): (r: MosaicResult)
    ensures r.count == |records|
    ensures r.detected <==> r.count > 0
    ensures r.timestamps == records[..if |records| < ListedFrames then |records| else ListedFrames]
  {
    MosaicResult(|records| > 0, |records|, Prefix(records, ListedFrames))
  }

  function MosaicOf(frames: seq<Frame>, averageRate: Option<NonNegReal>, edgeThreshold: real): MosaicResult
    requires forall k :: 0 <= k < |frames| ==> frames[k].WellFormed()
  {
    Report(MosaicUpTo(frames, |frames|, Fps(averageRate), edgeThreshold))
  }

  /** The decode loop of `detect_mosaic`; decoded frames are rectangular pixel arrays. */
  method DetectMosaic(frames: seq<Frame>, averageRate: Option<NonNegReal>, edgeThreshold: real) returns (r: MosaicResult)
    requires forall k :: 0 <= k < |frames| ==> frames[k].WellFormed()
    ensures r == MosaicOf(frames, averageRate, edgeThreshold)
  {
    var mosaicFrames: seq<Record> := [];
    var frameCount: nat := 0;
    var fps := Fps(averageRate);
    while frameCount < |frames|
      invariant frameCount <= |frames|
      invariant mosaicFrames == MosaicUpTo(frames, frameCount, fps, edgeThreshold)
    {
      var frame := frames[frameCount];
      if frame.meanEdge > edgeThreshold {
        var blockScores := ScoreBlocks(frame);
        var avgBlockScore := if blockScores != [] then Mean(blockScores) else 0.0;
        if avgBlockScore > 20.0 {
          var timestamp := frameCount as real / fps;
          mosaicFrames := mosaicFrames + [Record(frameCount, timestamp, avgBlockScore)];
        }
      }
      frameCount := frameCount + 1;
    }
    r := Report(mosaicFrames);
  }

  /** The rows visited from `y` are `y`, `y + bs`, `y + 2*bs`, ..., each strictly below `h - bs`, and the next one would not be. */
  lemma {:induction false} BoundaryRowsAre(h: nat, bs: nat, y: nat)
    requires bs > 0
    ensures var r := BoundaryRows(h, bs, y);
      && (r != [] ==> r[0] == y)
      && (forall i :: 0 < i < |r| ==> r[i] == r[i - 1] + bs)
      && (forall i :: 0 <= i < |r| ==> r[i] < h - bs)
      && (if r == [] then y else r[|r| - 1] + bs) >= h - bs
    decreases h - y
  {
    if y + bs < h {
      BoundaryRowsAre(h, bs, y + bs);
      var r := BoundaryRows(h, bs, y);
      var rest := BoundaryRows(h, bs, y + bs);
      assert r == [y] + rest;
      forall i | 0 < i < |r| ensures r[i] == r[i - 1] + bs {
        assert r[i] == rest[i - 1];
        if i > 1 {
          assert r[i - 1] == rest[i - 2];
        }
      }
    }
  }

  /** Each score for block size `bs` is that of the boundary at the matching visited row, which lies below the last row. */
  lemma {:induction false} ScoresAtBoundaryRows(f: Frame, bs: nat, y: nat)
    requires f.WellFormed() && 0 < bs <= f.width
    ensures var r := BoundaryRows(f.Height(), bs, y);
      var s := ScoresFrom(f, bs, y);
      && |s| == |r|
      && forall i :: 0 <= i < |s| ==> r[i] + bs < f.Height() && s[i] == BlockScore(f, bs, r[i])
    decreases f.Height() - y
  {
    if y + bs < f.Height() {
      ScoresAtBoundaryRows(f, bs, y + bs);
      var r := BoundaryRows(f.Height(), bs, y);
      var s := ScoresFrom(f, bs, y);
      var restRows := BoundaryRows(f.Height(), bs, y + bs);
      var restScores := ScoresFrom(f, bs, y + bs);
      assert r == [y] + restRows;
      assert s == [BlockScore(f, bs, y)] + restScores;
      forall i | 0 <= i < |s| ensures r[i] + bs < f.Height() && s[i] == BlockScore(f, bs, r[i]) {
        if i > 0 {
          assert r[i] == restRows[i - 1] && s[i] == restScores[i - 1];
        }
      }
    }
  }

  /** Every boundary scored with 16-pixel blocks is scored again with 8-pixel blocks, one position later in every pair. */
  lemma {:induction false} SixteenAlsoEight(f: Frame, y: nat)
    requires f.WellFormed() && 16 <= f.width
    ensures var s16 := ScoresFrom(f, 16, y);
      var s8 := ScoresFrom(f, 8, y);
      forall k :: 0 <= k < |s16| ==> 2 * k + 1 < |s8| && s16[k] == s8[2 * k + 1]
    decreases f.Height() - y
  {
    if y + 16 < f.Height() {
      SixteenAlsoEight(f, y + 16);
      var s16 := ScoresFrom(f, 16, y);
      var s8 := ScoresFrom(f, 8, y);
      var mid8 := ScoresFrom(f, 8, y + 8);
      var rest16 := ScoresFrom(f, 16, y + 16);
      var rest8 := ScoresFrom(f, 8, y + 16);
      assert s8 == [BlockScore(f, 8, y)] + mid8;
      assert mid8 == [BlockScore(f, 8, y + 8)] + rest8;
      assert s16 == [BlockScore(f, 16, y)] + rest16;
      SameBoundary(f, y);
      EveryOtherStep(s16, s8, rest16, rest8);
    }
  }

  /** Prepending one score to the sparse list and two to the dense one, the second equal to the first, keeps the sparse list at the dense one's odd positions. */
  lemma EveryOtherStep(s16: seq<real>, s8: seq<real>, rest16: seq<real>, rest8: seq<real>)
    requires |s16| == |rest16| + 1 && |s8| == |rest8| + 2
    requires s16[1..] == rest16 && s8[2..] == rest8 && s16[0] == s8[1]
    requires forall k :: 0 <= k < |rest16| ==> 2 * k + 1 < |rest8| && rest16[k] == rest8[2 * k + 1]
    ensures forall k :: 0 <= k < |s16| ==> 2 * k + 1 < |s8| && s16[k] == s8[2 * k + 1]
  {
    forall k | 0 <= k < |s16| ensures 2 * k + 1 < |s8| && s16[k] == s8[2 * k + 1] {
      if k > 0 {
        assert s16[k] == rest16[k - 1];
        assert s8[2 * k + 1] == rest8[2 * (k - 1) + 1];
      }
    }
  }

  /** The boundary below a 16-pixel block at `y` is the one below the 8-pixel block at `y + 8`. */
  lemma SameBoundary(f: Frame, y: nat)
    requires f.WellFormed() && 16 <= f.width && y + 16 < f.Height()
    ensures BlockScore(f, 16, y) == BlockScore(f, 8, y + 8)
  {
  }

  /** In a frame's block scores, the 16-pixel scores repeat the odd-numbered 8-pixel scores, so those boundaries count twice in the average. */
  lemma SixteenCountedTwice(f: Frame)
    requires f.WellFormed()
    ensures var s8 := SizeScores(f, 8);
      var s16 := SizeScores(f, 16);
      && BlockScores(f) == s8 + s16
      && forall k :: 0 <= k < |s16| ==> 2 * k + 1 < |s8| && s16[k] == s8[2 * k + 1]
  {
    var sizes := BlockSizes;
    assert sizes[..|sizes| - 1] == [8] && sizes[|sizes| - 1] == 16;
    assert ScoresOfSizes(f, [8]) == ScoresOfSizes(f, []) + SizeScores(f, 8);
    if f.Height() >= 16 && f.width >= 16 {
      SixteenAlsoEight(f, 0);
    }
  }

  /** A frame at most 8 rows tall has no block scores, an average of 0, and is never recorded. */
  lemma ShortFrameNeverFlagged(f: Frame, edgeThreshold: real)
    requires f.WellFormed() && f.Height() <= 8
    ensures BlockScores(f) == []
    ensures AverageScore(BlockScores(f)) == 0.0
    ensures !Flagged(f, edgeThreshold)
  {
    SixteenCountedTwice(f);
  }

  /** Each record is a flagged frame among the first `n`, at its decode position and time, with its average score; positions strictly increase. */
  predicate Faithful(records: seq<Record>, frames: seq<Frame>, n: nat, fps: real, edgeThreshold: real)
    requires n <= |frames| && fps > 0.0
    requires forall k :: 0 <= k < |frames| ==> frames[k].WellFormed()
  {
    && (forall j :: 0 <= j < |records| ==>
          && records[j].frame < n
          && Flagged(frames[records[j].frame], edgeThreshold)
          && records[j].timestamp == FrameTime(records[j].frame, fps)
          && records[j].blockScore == AverageScore(BlockScores(frames[records[j].frame])))
    && (forall i, j :: 0 <= i < j < |records| ==> records[i].frame < records[j].frame)
  }

  lemma {:induction false} RecordsFaithful(frames: seq<Frame>, n: nat, fps: real, edgeThreshold: real)
    requires n <= |frames| && fps > 0.0
    requires forall k :: 0 <= k < |frames| ==> frames[k].WellFormed()
    ensures Faithful(MosaicUpTo(frames, n, fps, edgeThreshold), frames, n, fps, edgeThreshold)
  {
    if n > 0 {
      RecordsFaithful(frames, n - 1, fps, edgeThreshold);
    }
  }

  /** Every flagged frame is recorded. */
  lemma {:induction false} FlaggedFramesRecorded(frames: seq<Frame>, n: nat, fps: real, edgeThreshold: real, k: nat)
    requires n <= |frames| && fps > 0.0 && k < n
    requires forall k :: 0 <= k < |frames| ==> frames[k].WellFormed()
    requires Flagged(frames[k], edgeThreshold)
    ensures exists j :: 0 <= j < |MosaicUpTo(frames, n, fps, edgeThreshold)| && MosaicUpTo(frames, n, fps, edgeThreshold)[j].frame == k
  {
    var records := MosaicUpTo(frames, n, fps, edgeThreshold);
    if k == n - 1 {
      assert records[|records| - 1].frame == k;
    } else {
      FlaggedFramesRecorded(frames, n - 1, fps, edgeThreshold, k);
      var before := MosaicUpTo(frames, n - 1, fps, edgeThreshold);
      var j :| 0 <= j < |before| && before[j].frame == k;
      assert records[j] == before[j];
    }
  }

  /** A frame is recorded exactly when its mean edge exceeds the edge threshold and its average block score exceeds 20. */
  lemma RecordedIffFlagged(frames: seq<Frame>, averageRate: Option<NonNegReal>, edgeThreshold: real, k: nat)
    requires k < |frames|
    requires forall k :: 0 <= k < |frames| ==> frames[k].WellFormed()
    ensures var records := MosaicUpTo(frames, |frames|, Fps(averageRate), edgeThreshold);
      (exists j :: 0 <= j < |records| && records[j].frame == k)
        <==> frames[k].meanEdge > edgeThreshold && AverageScore(BlockScores(frames[k])) > 20.0
  {
    var fps := Fps(averageRate);
    RecordsFaithful(frames, |frames|, fps, edgeThreshold);
    if Flagged(frames[k], edgeThreshold) {
      FlaggedFramesRecorded(frames, |frames|, fps, edgeThreshold, k);
    }
  }
}
