/** video_black_detect.c: the pixel count, the percentage test and the flag. */
module BlackDetect {
  import opened FrameInfoQueue
  import opened Planes
  import H = Hysteresis

  /** The visible pixels, as (row, column), that are darker than the threshold. */
  ghost function Dark(plane: Plane, width: nat, height: nat, threshold: int): set<(nat, nat)>
    requires InPlane(plane, width, height)
  {
    set i: nat, j: nat | i < height && j < width && plane.data[Row(plane, i) + j] < threshold :: (i, j)
  }

  /** Pixel (i, j) is the byte `j` places into row `i`, and rows are a stride apart. */
  lemma DarkMeans(plane: Plane, width: nat, height: nat, threshold: int, i: nat, j: nat)
    requires InPlane(plane, width, height)
    ensures (i, j) in Dark(plane, width, height, threshold) <==>
      i < height && j < width && i * plane.linesize + j < |plane.data| && plane.data[i * plane.linesize + j] < threshold
  {
    if i < height && j < width {
      assert Row(plane, i) + width <= |plane.data|;
    }
  }

  /** The pixels of a set in the rows before `row`, or in that row before `column`. */
  ghost function Before(pixels: set<(nat, nat)>, row: nat, column: nat): set<(nat, nat)> {
    set p | p in pixels && (p.0 < row || (p.0 == row && p.1 < column))
  }

  lemma BeforeNext(pixels: set<(nat, nat)>, row: nat, column: nat)
    ensures |Before(pixels, row, column + 1)|
         == |Before(pixels, row, column)| + (if (row, column) in pixels then 1 else 0)
  {
    var a := Before(pixels, row, column);
    if (row, column) in pixels {
      assert Before(pixels, row, column + 1) == a + {(row, column)};
    } else {
      assert Before(pixels, row, column + 1) == a;
    }
  }

  /** A scan that has reached the end of a row is at the start of the next one. */
  lemma BeforeNextRow(pixels: set<(nat, nat)>, row: nat, width: nat)
    requires forall p :: p in pixels ==> p.1 < width
    ensures Before(pixels, row, width) == Before(pixels, row + 1, 0)
  {
  }

  /** The integer percentage reaches the wanted one exactly when the pixel count does. */
  lemma FlooredPercentage(count: nat, pixels: nat, percentage: int)
    requires pixels > 0
    ensures count * 100 / pixels >= percentage <==> 100 * count >= percentage * pixels
  {
    var q, r := count * 100 / pixels, count * 100 % pixels;
    assert count * 100 == q * pixels + r;
    if q >= percentage {
      assert q * pixels >= percentage * pixels;
    } else {
      assert (q + 1) * pixels <= percentage * pixels;
    }
  }

  // the pixel loops; `p` is the source's moving row pointer
  method CountDark(plane: Plane, width: nat, height: nat, threshold: int) returns (nblack: nat)
    requires InPlane(plane, width, height)
    ensures nblack == |Dark(plane, width, height, threshold)|
  {
    ghost var dark := Dark(plane, width, height, threshold);
    nblack := 0;
    var p := 0;
    assert Before(dark, 0, 0) == {};
    for i := 0 to height
      invariant p == Row(plane, i)
      invariant nblack == |Before(dark, i, 0)|
    {
      for j := 0 to width
        invariant nblack == |Before(dark, i, j)|
      {
        assert (i, j) in dark <==> plane.data[p + j] < threshold;
        BeforeNext(dark, i, j);
        nblack := nblack + if plane.data[p + j] < threshold then 1 else 0;
      }
      BeforeNextRow(dark, i, width);
      p := p + plane.linesize;
    }
    assert Before(dark, height, 0) == dark;
  }

  class BlackDetect {
    const percentage: int             // percentage_below_threshold
    const threshold: int
    const blackThreshold: nat         // black_frame_count_threshold
    const nonBlackThreshold: nat      // non_black_frame_count_threshold
    var blackCounter: nat
    var nonBlackCounter: nat
    var black: bool
    ghost var history: seq<H.Event>

    ghost predicate Valid()
      reads this
    {
      H.Counters(blackCounter, nonBlackCounter, black) 
        == H.Run(H.Limits(on := blackThreshold, off := nonBlackThreshold), history)
    }

    /** Enough of the visible pixels are dark. */
    ghost predicate IsBlack(plane: Plane, width: nat, height: nat)
      requires InPlane(plane, width, height)
    {
      100 * |Dark(plane, width, height, threshold)| >= percentage * (width * height)
    }

    // init, and the thresholds that the first frame fixes
    constructor (percentage: int, threshold: int, blackThreshold: nat, nonBlackThreshold: nat)
      ensures Valid() && history == [] && black
      ensures this.percentage == percentage && this.threshold == threshold
      ensures this.blackThreshold == blackThreshold && this.nonBlackThreshold == nonBlackThreshold
    {
      this.percentage, this.threshold := percentage, threshold;
      this.blackThreshold, this.nonBlackThreshold := blackThreshold, nonBlackThreshold;
      blackCounter, nonBlackCounter, black := 0, 0, true;
      history := [];
    }

    // process
    method Process(plane: Plane, width: nat, height: nat, info: FrameInfo) returns (out: FrameInfo)
      requires Valid() && width * height > 0 && InPlane(plane, width, height)
      modifies this
      ensures Valid() && history == old(history) + [H.Event(IsBlack(plane, width, height), 1)]
      ensures blackCounter <= blackThreshold && nonBlackCounter <= nonBlackThreshold
      ensures IsBlack(plane, width, height) && blackThreshold == 0 ==> black
      ensures !IsBlack(plane, width, height) && nonBlackThreshold == 0 ==> !black
      ensures out == info.(flags := info.flags + (if black then {Black} else {}))
    {
      var nblack := CountDark(plane, width, height, threshold);
      var pblack := nblack * 100 / (width * height);
      var isBlack := pblack >= percentage;
      FlooredPercentage(nblack, width * height, percentage);
      if isBlack {
        blackCounter := blackCounter + 1;
        if blackCounter > blackThreshold {
          blackCounter := 0;
          nonBlackCounter := 0;
          black := true;
        }
      } else {
        nonBlackCounter := nonBlackCounter + 1;
        if nonBlackCounter > nonBlackThreshold {
          blackCounter := 0;
          nonBlackCounter := 0;
          black := false;
        }
      }
      ghost var limits := H.Limits(blackThreshold, nonBlackThreshold);
      H.RunSnoc(limits, H.START, history, H.Event(isBlack, 1));
      history := history + [H.Event(isBlack, 1)];
      ghost var _, _ := H.FlagIsLastWinner(limits, history);
      out := info.(flags := info.flags + (if black then {Black} else {}));
    }
  }
}
