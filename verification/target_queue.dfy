// The guided sequence of targets (tools/calibrate_camera.py, TargetQueue).
module TargetQueues {
  import opened BoardFit
  import FitTargets
  import TB = ThresholdBox

  /** int(a / b): the true quotient, truncated toward zero. */
  function TruncDiv(a: int, b: int): int
    requires b > 0
  {
    if a >= 0 then a / b else -((-a) / b)
  }

  function Pad(side: int, corners: int): int {
    TruncDiv(side, AtLeastOne(corners - 1)) + 8
  }

  function PaddedRegion(rect: Rect, width: int, height: int, padX: int, padY: int): TB.Box {
    var tx1, ty1 := TB.Max(rect.x1 - padX, 0), TB.Max(rect.y1 - padY, 0);
    var tx2, ty2 := TB.Min(rect.x2 + padX, width), TB.Min(rect.y2 + padY, height);
    TB.Box(tx1, ty1, tx2 - tx1, ty2 - ty1)
  }

  /** The region to threshold: the target box padded by a square on every side. */
  function ThresholdRegion(rect: Rect, width: int, height: int, k: Pattern): TB.Box {
    PaddedRegion(rect, width, height, Pad(rect.Width(), k.cols), Pad(rect.Height(), k.rows))
  }

  /** The padding is 8 pixels more than the whole part of the side's share of a square. */
  lemma PadExactly(side: int, corners: int)
    requires side >= 0 && corners >= 2
    ensures (corners - 1) * (Pad(side, corners) - 8) <= side < (corners - 1) * (Pad(side, corners) - 7)
  {
    var m := corners - 1;
    var q := side / m;
    assert m * q <= side < m * q + m;
    assert m * (q + 1) == m * q + m;
  }

  /** The region is the box with that many columns and rows more on each side, as far as
      the frame goes. */
  lemma RegionExactly(rect: Rect, width: int, height: int, k: Pattern, r: int, c: int)
    ensures ThresholdRegion(rect, width, height, k).Holds(r, c) <==>
      && 0 <= c < width && rect.x1 - Pad(rect.x2 - rect.x1, k.cols) <= c < rect.x2 + Pad(rect.x2 - rect.x1, k.cols)
      && 0 <= r < height && rect.y1 - Pad(rect.y2 - rect.y1, k.rows) <= r < rect.y2 + Pad(rect.y2 - rect.y1, k.rows)
  {
    hide Pad;
  }

  // ----- the region holds the whole board -----

  lemma SquareBelowPad(square: real, corners: int, side: int)
    requires corners >= 2 && square > 0.0 && (corners - 1) as real * square <= side as real
    ensures square < (Pad(side, corners) - 7) as real
  {
    var m := corners - 1;
    SpanPositive(m as real, square);
    var q := side / m;
    assert side < m * q + m;
    assert side as real < (m * q + m) as real;
    assert (m * q + m) as real == m as real * (q + 1) as real by {
      assert m * q + m == m * (q + 1);
      ProductAsReal(m, q + 1);
    }
    if square >= (q + 1) as real {
      CancelAtMost((q + 1) as real, square, m as real);
    }
  }

  lemma ProductAsReal(a: int, b: int)
    ensures (a * b) as real == a as real * b as real
  {
  }

  predicate InFrame(rect: Rect, width: int, height: int) {
    0 <= rect.x1 <= rect.x2 <= width && 0 <= rect.y1 <= rect.y2 <= height
  }

  /** Percentages of the frame are pixels of the frame. */
  lemma TargetInFrame(t: Target, width: int, height: int)
    requires FitTargets.WellFormed(t) && width > 0 && height > 0
    ensures InFrame(PixelRect(t, width, height), width, height)
  {
    PercentOfSide(t.x1, t.x2, width);
    PercentOfSide(t.y1, t.y2, height);
  }

  lemma HundredthOf(x: int, y: int, side: int)
    requires 0 <= x <= y <= 100 * side
    ensures 0 <= x / 100 <= y / 100 <= side
  {
  }

  lemma ProductUpTo(a: int, b: int, n: int)
    requires 0 <= a <= b && n > 0
    ensures 0 <= a * n <= b * n
  {
  }

  lemma PercentOfSide(a: int, b: int, side: int)
    requires 0 <= a <= b <= 100 && side > 0
    ensures 0 <= a * side / 100 <= b * side / 100 <= side
  {
    ProductUpTo(a, b, side);
    ProductUpTo(b, 100, side);
    HundredthOf(a * side, b * side, side);
  }

  ghost predicate RegionCovers(region: TB.Box, rect: Rect, width: int, height: int) {
    && region.InsideFrame(width, height)
    && region.x <= rect.x1 && rect.x2 <= region.x + region.w
    && region.y <= rect.y1 && rect.y2 <= region.y + region.h
    && TB.ClipToFrame(region, width, height) == region
  }

  lemma PaddingCovers(rect: Rect, width: int, height: int, padX: int, padY: int)
    requires InFrame(rect, width, height) && padX >= 0 && padY >= 0
    ensures RegionCovers(PaddedRegion(rect, width, height, padX, padY), rect, width, height)
  {
  }

  lemma PadAtLeastEight(side: int, corners: int)
    requires side >= 0
    ensures Pad(side, corners) >= 8
  {
  }

  /** The region contains the target box and stays inside the frame, so clipping
      it to the frame changes nothing. */
  lemma RegionContainsBox(rect: Rect, width: int, height: int, k: Pattern)
    requires InFrame(rect, width, height)
    ensures RegionCovers(ThresholdRegion(rect, width, height, k), rect, width, height)
  {
    PadAtLeastEight(rect.Width(), k.cols);
    PadAtLeastEight(rect.Height(), k.rows);
    PaddingCovers(rect, width, height, Pad(rect.Width(), k.cols), Pad(rect.Height(), k.rows));
  }

  /** Region side [t1, t2] holds board side [lo, hi], with seven pixels to spare
      wherever the region's side is not the frame's. */
  predicate SideHolds(t1: int, t2: int, frame: int, lo: real, hi: real) {
    && t1 as real <= lo && hi <= t2 as real
    && (t1 > 0 ==> t1 as real + 7.0 < lo)
    && (t2 < frame ==> hi + 7.0 < t2 as real)
  }

  lemma PaddedSideHolds(b1: int, b2: int, frame: int, pad: int, square: real, p: real, end: real)
    requires b1 as real <= p && end <= b2 as real && 0.0 <= p - square && end + square <= frame as real
    requires square < (pad - 7) as real
    ensures SideHolds(TB.Max(b1 - pad, 0), TB.Min(b2 + pad, frame), frame, p - square, end + square)
  {
  }

  /** One axis of the padded region holds one axis of the board. */
  lemma AxisHolds(b1: int, b2: int, frame: int, corners: int, square: real, p: real, end: real)
    requires corners >= 2 && square > 0.0 && end == p + (corners - 1) as real * square
    requires b1 as real <= p && end <= b2 as real && 0.0 <= p - square && end + square <= frame as real
    ensures SideHolds(TB.Max(b1 - Pad(b2 - b1, corners), 0), TB.Min(b2 + Pad(b2 - b1, corners), frame), frame,
                      p - square, end + square)
  {
    SquareBelowPad(square, corners, b2 - b1);
    PaddedSideHolds(b1, b2, frame, Pad(b2 - b1, corners), square, p, end);
  }

  /** The physical board, from one square before its first corner to one square
      past its last, inside a region; a region side less than seven pixels from
      the board is a side of the frame. */
  ghost predicate RegionHolds(region: TB.Box, width: int, height: int, b: Board, endX: real, endY: real) {
    && SideHolds(region.x, region.x + region.w, width, b.x - b.square, endX + b.square)
    && SideHolds(region.y, region.y + region.h, height, b.y - b.square, endY + b.square)
  }

  lemma PaddedRegionHolds(rect: Rect, width: int, height: int, padX: int, padY: int, b: Board, endX: real, endY: real)
    requires SideHolds(TB.Max(rect.x1 - padX, 0), TB.Min(rect.x2 + padX, width), width, b.x - b.square, endX + b.square)
    requires SideHolds(TB.Max(rect.y1 - padY, 0), TB.Min(rect.y2 + padY, height), height,
                       b.y - b.square, endY + b.square)
    ensures RegionHolds(PaddedRegion(rect, width, height, padX, padY), width, height, b, endX, endY)
  {
  }

  /** For every target box and every board held upright in the frame whose inner corners
      pass `contains`, the whole physical board lies in the threshold region. At other
      angles it need not: see `HeldBoards.EscapesExactly`. */
  lemma RegionHoldsWholeBoard(rect: Rect, width: int, height: int, k: Pattern, b: Board, endX: real, endY: real)
    requires IsBoardPattern(k) && Fits(b, k, rect, width, height)
    requires endX == b.x + (k.cols - 1) as real * b.square && endY == b.y + (k.rows - 1) as real * b.square
    ensures RegionHolds(ThresholdRegion(rect, width, height, k), width, height, b, endX, endY)
  {
    FitsIsPlaced(b, k, rect, width, height, endX, endY);
    PadsHold(rect, width, height, k, b, endX, endY);
    PaddedRegionHolds(rect, width, height, Pad(rect.Width(), k.cols), Pad(rect.Height(), k.rows), b, endX, endY);
  }

  /** The board's placement, by its two end corners. */
  ghost predicate Between(b: Board, rect: Rect, width: int, height: int, endX: real, endY: real) {
    && b.square > 0.0
    && rect.x1 as real <= b.x && endX <= rect.x2 as real && 0.0 <= b.x - b.square && endX + b.square <= width as real
    && rect.y1 as real <= b.y && endY <= rect.y2 as real && 0.0 <= b.y - b.square && endY + b.square <= height as real
  }

  lemma FitsIsPlaced(b: Board, k: Pattern, rect: Rect, width: int, height: int, endX: real, endY: real)
    requires Fits(b, k, rect, width, height)
    requires endX == b.x + (k.cols - 1) as real * b.square && endY == b.y + (k.rows - 1) as real * b.square
    ensures Between(b, rect, width, height, endX, endY)
  {
  }

  lemma PadsHold(rect: Rect, width: int, height: int, k: Pattern, b: Board, endX: real, endY: real)
    requires IsBoardPattern(k) && Between(b, rect, width, height, endX, endY)
    requires endX == b.x + (k.cols - 1) as real * b.square && endY == b.y + (k.rows - 1) as real * b.square
    ensures var padX, padY := Pad(rect.Width(), k.cols), Pad(rect.Height(), k.rows);
            && SideHolds(TB.Max(rect.x1 - padX, 0), TB.Min(rect.x2 + padX, width), width,
                         b.x - b.square, endX + b.square)
            && SideHolds(TB.Max(rect.y1 - padY, 0), TB.Min(rect.y2 + padY, height), height,
                         b.y - b.square, endY + b.square)
  {
    hide Pad, SideHolds, TB.Max, TB.Min;
    AxisHolds(rect.x1, rect.x2, width, k.cols, b.square, b.x, endX);
    AxisHolds(rect.y1, rect.y2, height, k.rows, b.square, b.y, endY);
  }

  lemma BorderMeetsOnlyFrameEdge(region: TB.Box, width: int, height: int, b: Board, endX: real, endY: real, r: int,
                                 c: int)
    requires RegionHolds(region, width, height, b, endX, endY) && region.InsideFrame(width, height)
    requires b.x - b.square <= c as real <= endX + b.square && b.y - b.square <= r as real <= endY + b.square
    requires region.OnBorder(r, c)
    ensures c == 0 || c == width - 1 || r == 0 || r == height - 1
  {
  }

  /** So the white border the thresholding draws can meet a board held upright only
      where that touches an edge of the frame. */
  lemma WhiteBorderMeetsBoardOnlyAtFrameEdge(rect: Rect, width: int, height: int, k: Pattern, b: Board,
                                             endX: real, endY: real, r: int, c: int)
    requires InFrame(rect, width, height) && IsBoardPattern(k) && Fits(b, k, rect, width, height)
    requires endX == b.x + (k.cols - 1) as real * b.square && endY == b.y + (k.rows - 1) as real * b.square
    requires b.x - b.square <= c as real <= endX + b.square && b.y - b.square <= r as real <= endY + b.square
    requires TB.ClipToFrame(ThresholdRegion(rect, width, height, k), width, height).OnBorder(r, c)
    ensures c == 0 || c == width - 1 || r == 0 || r == height - 1
  {
    RegionContainsBox(rect, width, height, k);
    RegionHoldsWholeBoard(rect, width, height, k, b, endX, endY);
    BorderMeetsOnlyFrameEdge(ThresholdRegion(rect, width, height, k), width, height, b, endX, endY, r, c);
  }

  // ----- samples -----

  function Samples(targets: seq<Target>): int {
    if targets == [] then 0 else targets[0].samples + Samples(targets[1..])
  }

  lemma SamplesStart(targets: seq<Target>)
    ensures Samples(targets) == if targets == [] then 0 else targets[0].samples + Samples(targets[0 + 1..])
  {
  }

  ghost predicate AllWellFormed(targets: seq<Target>) {
    forall i :: 0 <= i < |targets| ==> FitTargets.WellFormed(targets[i])
  }

  lemma {:induction false} SamplesCoverTargets(targets: seq<Target>)
    requires AllWellFormed(targets)
    ensures Samples(targets) >= |targets|
  {
    if targets != [] {
      SamplesCoverTargets(targets[1..]);
    }
  }

  /** fit_targets hands the queue well-formed targets. */
  lemma FittedAreWellFormed(targets: seq<Target>, width: int, height: int, k: Pattern, fitted: seq<Target>,
                            kept: seq<nat>)
    requires AllWellFormed(targets) && FitTargets.IsFitted(targets, width, height, k, fitted, kept)
    ensures AllWellFormed(fitted)
  {
    forall a | 0 <= a < |fitted| ensures FitTargets.WellFormed(fitted[a]) {
      assert FitTargets.WellFormed(targets[kept[a]]);
      FitTargets.ThresholdOnlyFalls(targets[kept[a]], width, height, k);
    }
  }

  function Best(observed: seq<real>): real {
    if observed == [] then 0.0
    else MaxReal(Best(observed[..|observed| - 1]), observed[|observed| - 1])
  }

  lemma {:induction false} BestIsLargest(observed: seq<real>)
    ensures forall i :: 0 <= i < |observed| ==> observed[i] <= Best(observed)
    ensures Best(observed) >= 0.0
  {
    if observed != [] {
      var front := observed[..|observed| - 1];
      BestIsLargest(front);
      assert forall i :: 0 <= i < |front| ==> front[i] == observed[i];
    }
  }

  /** A threshold is due for lowering: the target has been up for longer than asked, 15
      in-box frames or more all stayed below it, and one of them reached 15 percent. */
  ghost predicate OutOfItsReach(observed: seq<real>, fillPct: real, start: real, afterSec: real, now: real) {
    && afterSec > 0.0 && now - start >= afterSec && |observed| >= 15
    && (forall i :: 0 <= i < |observed| ==> observed[i] < fillPct)
    && exists i :: 0 <= i < |observed| && observed[i] >= 15.0
  }

  /** By how much: to a percent below the best frame, or to 15. */
  ghost predicate Eases(observed: seq<real>, from: real, to: real) {
    && 15.0 <= to < from
    && (forall i :: 0 <= i < |observed| ==> observed[i] - 1.0 <= to)
    && (to == 15.0 || exists i :: 0 <= i < |observed| && to == observed[i] - 1.0)
  }

  lemma StuckExactly(a: Attempt, observed: seq<real>, afterSec: real, now: real)
    requires a.hits == |observed| && a.best == Best(observed) && a.fillPct > 0.0
    ensures Stuck(a, afterSec, now) && a.best >= 15.0 <==>
            !a.relaxed && OutOfItsReach(observed, a.fillPct, a.start, afterSec, now)
    ensures Stuck(a, afterSec, now) && a.best >= 15.0 ==>
            Eases(observed, a.fillPct, Eased(a, afterSec, now).fillPct)
  {
    BestIsLargest(observed);
    if Best(observed) > 0.0 {
      BestIsObserved(observed);
    }
    hide Best;
  }

  lemma {:induction false} BestIsObserved(observed: seq<real>)
    requires Best(observed) > 0.0
    ensures Best(observed) in observed
  {
    if Best(observed[..|observed| - 1]) == Best(observed) {
      BestIsObserved(observed[..|observed| - 1]);
    }
  }

  datatype Relaxation = Unchanged | Warning | Lowered(from: real)

  const RELAX_HITS := 15

  /** One attempt at a target: the threshold in force and what was seen so far. */
  datatype Attempt = Attempt(
    index: nat, rect: Rect, fillPct: real, hits: nat, best: real, start: real, relaxed: bool)

  function Fresh(targets: seq<Target>, width: int, height: int, index: nat, now: real): Attempt
    requires index < |targets|
  {
    Attempt(index, PixelRect(targets[index], width, height), targets[index].fill as real, 0, 0.0, now, false)
  }

  function Noted(a: Attempt, inside: bool, fill: real): Attempt {
    if inside then a.(hits := a.hits + 1, best := MaxReal(a.best, fill)) else a
  }

  /** A sustained attempt that stays below its threshold. */
  predicate Stuck(a: Attempt, afterSec: real, now: real) {
    afterSec > 0.0 && !a.relaxed && now - a.start >= afterSec && a.hits >= RELAX_HITS && a.best < a.fillPct
  }

  function Eased(a: Attempt, afterSec: real, now: real): Attempt {
    if Stuck(a, afterSec, now) && a.best >= FILL_FLOOR as real then
      a.(fillPct := MaxReal(FILL_FLOOR as real, a.best - 1.0), relaxed := true)
    else a
  }

  class TargetQueue {
    const targets: seq<Target>
    const width: int
    const height: int
    const k: Pattern
    const total: int

    var taken: int
    var index: nat
    var rect: Rect
    var threshBox: TB.Box
    var fillPct: real
    var remaining: int
    var bestFill: real
    var inBoxHits: nat
    var tStart: real
    var relaxed: bool
    var warned: bool

    /** Fills of the in-box detections of the current target. */
    ghost var observed: seq<real>
    /** Samples accepted of targets that wanted none. */
    ghost var surplus: nat

    predicate Done()
      reads this
    {
      index >= |targets|
    }

    /** The current target's fields agree with the table and with what was seen. */
    ghost predicate Loaded()
      reads this
    {
      index < |targets| ==>
        && rect == PixelRect(targets[index], width, height)
        && threshBox == ThresholdRegion(rect, width, height, k)
        && inBoxHits == |observed| && bestFill == Best(observed)
        && (relaxed ==> FILL_FLOOR as real <= fillPct <= bestFill && fillPct < targets[index].fill as real)
        && (!relaxed ==> fillPct == targets[index].fill as real)
    }

    /** Samples taken, still wanted here and wanted by later targets add up. */
    ghost predicate Conserved()
      reads this
    {
      && index <= |targets| && total == Samples(targets)
      && (index < |targets| ==> taken + remaining + Samples(targets[index + 1..]) == total + surplus)
      && (index == |targets| ==> taken == total + surplus)
      && (AllWellFormed(targets) ==> surplus == 0 && taken >= 0)
    }

    /** What the current target still wants: at least one, if it wanted any. */
    ghost predicate Wants()
      reads this
    {
      index < |targets| ==>
        if targets[index].samples >= 1 then 1 <= remaining <= targets[index].samples
        else remaining == targets[index].samples
    }

    ghost predicate Valid()
      reads this
    {
      Loaded() && Conserved() && Wants()
    }

    function Current(): Attempt
      reads this
    {
      Attempt(index, rect, fillPct, inBoxHits, bestFill, tStart, relaxed)
    }

    constructor (targets: seq<Target>, width: int, height: int, k: Pattern, now: real)
      ensures Valid() && taken == 0 && index == 0 && surplus == 0 && !relaxed
      ensures this.targets == targets && this.width == width && this.height == height && this.k == k
      ensures total == Samples(targets)
      ensures targets != [] ==> Current() == Fresh(targets, width, height, 0, now) && remaining == targets[0].samples
      ensures targets != [] ==> tStart == now && observed == []
    {
      hide PixelRect, ThresholdRegion, Best, Samples, Fresh, TargetQueue.Loaded, AllWellFormed;
      this.targets, this.width, this.height, this.k := targets, width, height, k;
      total := Samples(targets);
      taken, index := 0, 0;
      rect, threshBox := Rect(0, 0, 0, 0), TB.Box(0, 0, 0, 0);
      fillPct, remaining, bestFill, inBoxHits := 0.0, 0, 0.0, 0;
      tStart, relaxed, warned, observed, surplus := now, false, false, [], 0;
      new;
      Load(now);
      SamplesStart(targets);
    }

    method Load(now: real)
      modifies this`rect, this`threshBox, this`fillPct, this`remaining, this`bestFill, this`inBoxHits,
               this`tStart, this`relaxed, this`warned, this`observed
      ensures Loaded()
      ensures index < |targets| ==> remaining == targets[index].samples
      ensures index < |targets| ==> Current() == Fresh(targets, width, height, index, now) && !relaxed && !warned
      ensures index < |targets| ==> tStart == now && observed == []
      ensures index >= |targets| ==> remaining == old(remaining) && relaxed == old(relaxed)
    {
      if Done() {
        return;
      }
      var t := targets[index];
      rect := PixelRect(t, width, height);
      fillPct := t.fill as real;
      remaining := t.samples;
      bestFill, inBoxHits, tStart, relaxed, warned := 0.0, 0, now, false, false;
      observed := [];
      threshBox := ThresholdRegion(rect, width, height, k);
    }

    function Progress(): real
      reads this
    {
      if total != 0 then taken as real / total as real else 1.0
    }

    method Note(inside: bool, fill: real)
      requires Valid()
      modifies this`inBoxHits, this`bestFill, this`observed
      ensures Valid()
      ensures Current() == Noted(old(Current()), inside, fill)
      ensures observed == if inside then old(observed) + [fill] else old(observed)
      ensures bestFill >= old(bestFill) && (inside ==> bestFill >= fill)
    {
      if inside {
        inBoxHits := inBoxHits + 1;
        bestFill := MaxReal(bestFill, fill);
        observed := observed + [fill];
        assert observed[..|observed| - 1] == old(observed);
      }
    }

    method MaybeRelax(afterSec: real, now: real) returns (r: Relaxation)
      requires Valid()
      modifies this`fillPct, this`relaxed, this`warned
      ensures Valid()
      // it fires exactly when stuck above the floor, and then to something seen
      ensures Current() == if Done() then old(Current()) else Eased(old(Current()), afterSec, now)
      ensures r.Lowered? <==> !Done() && old(Stuck(Current(), afterSec, now)) && bestFill >= FILL_FLOOR as real
      ensures r.Lowered? ==> !old(relaxed) && relaxed && r.from == old(fillPct) && fillPct < old(fillPct)
      ensures r.Lowered? ==> exists i :: 0 <= i < |observed| && fillPct <= observed[i]
      ensures r.Lowered? ==> fillPct == MaxReal(FILL_FLOOR as real, bestFill - 1.0)
      ensures !r.Lowered? ==> fillPct == old(fillPct) && relaxed == old(relaxed)
      // said with the fills observed
      ensures !Done() && old(fillPct) > 0.0 ==>
        (r.Lowered? <==> !old(relaxed) && OutOfItsReach(observed, old(fillPct), tStart, afterSec, now))
      ensures r.Lowered? && old(fillPct) > 0.0 ==> Eases(observed, old(fillPct), fillPct)
      // a warning comes at most once per target
      ensures r.Warning? <==>
              !Done() && old(Stuck(Current(), afterSec, now)) && bestFill < FILL_FLOOR as real && !old(warned)
      ensures warned == (old(warned) || r.Warning?)
    {
      if !Done() && fillPct > 0.0 {
        StuckExactly(Current(), observed, afterSec, now);
      }
      if afterSec <= 0.0 || relaxed || Done() {
        return Unchanged;
      }
      if now - tStart < afterSec {
        return Unchanged;
      }
      if inBoxHits < RELAX_HITS || bestFill >= fillPct {
        return Unchanged;
      }
      if bestFill < FILL_FLOOR as real {
        if !warned {
          warned := true;
          return Warning;
        }
        return Unchanged;
      }
      r := Lowered(fillPct);
      fillPct := MaxReal(FILL_FLOOR as real, bestFill - 1.0);
      relaxed := true;
      BestIsObserved(observed);
    }

    method Accept(now: real)
      requires Valid() && !Done()
      modifies this
      ensures Valid()
      ensures taken == old(taken) + 1
      ensures total > 0 ==> Progress() > old(Progress())
      ensures surplus == old(surplus) + if old(remaining) >= 1 then 0 else 1 - old(remaining)
      ensures old(remaining) > 1 ==> remaining == old(remaining) - 1 && Current() == old(Current())
      ensures old(remaining) > 1 ==> unchanged(this`threshBox, this`warned, this`observed)
      ensures old(remaining) <= 1 ==> index == old(index) + 1
      ensures index > old(index) && !Done() ==> Current() == Fresh(targets, width, height, index, now) && !relaxed
      ensures index > old(index) && !Done() ==> remaining == targets[index].samples && tStart == now && observed == []
    {
      hide Best, PixelRect, ThresholdRegion, Fresh, Samples;
      taken := taken + 1;
      remaining := remaining - 1;
      if remaining <= 0 {
        surplus := surplus - remaining;
        Advance(false, now);
      }
      if total > 0 {
        ProgressNeverFalls(old(taken), taken, total);
      }
    }

    /** On to the next target. A skipped one's outstanding samples count as taken. */
    method Advance(countSamples: bool, now: real)
      requires !Done() && index < |targets| && total == Samples(targets)
      requires taken + (if countSamples then remaining else 0) + Samples(targets[index + 1..]) == total + surplus
      requires AllWellFormed(targets) ==> surplus == 0 && taken + (if countSamples then remaining else 0) >= 0
      modifies this
      ensures Valid()
      ensures index == old(index) + 1 && surplus == old(surplus)
      ensures taken == old(taken) + if countSamples then old(remaining) else 0
      ensures total > 0 && taken >= old(taken) ==> Progress() >= old(Progress())
      ensures !Done() ==> Current() == Fresh(targets, width, height, index, now) && !relaxed
      ensures !Done() ==> remaining == targets[index].samples && tStart == now && observed == []
    {
      if countSamples {
        taken := taken + remaining;
      }
      if total > 0 && taken >= old(taken) {
        ProgressNeverFalls(old(taken), taken, total);
      }
      index := index + 1;
      assert targets[index..] != [] ==> targets[index..][1..] == targets[index + 1..];
      Load(now);
    }

    lemma TotalOfTable()
      requires Valid()
      ensures total == Samples(targets)
    {
    }

    /** Progress is the share of the total that was taken. */
    lemma ProgressIsShare()
      ensures total != 0 ==> Progress() * total as real == taken as real
      ensures total == 0 ==> Progress() == 1.0
    {
      hide Samples;
    }

    /** When every target wants a sample, progress is a fraction, and it is 1 exactly
        when the queue is done. */
    lemma ProgressMeansDone()
      requires Valid() && AllWellFormed(targets)
      ensures 0.0 <= Progress() <= 1.0
      ensures Progress() == 1.0 <==> Done()
      ensures taken == total <==> Done()
      ensures taken <= total
    {
      SamplesCoverTargets(targets);
      if index < |targets| {
        assert AllWellFormed(targets[index + 1..]);
        SamplesCoverTargets(targets[index + 1..]);
        assert FitTargets.WellFormed(targets[index]);
      }
      if total != 0 {
        FractionOfTotal(taken, total);
      }
    }
  }

  lemma FractionOfTotal(part: int, whole: int)
    requires 0 <= part <= whole && whole > 0
    ensures 0.0 <= part as real / whole as real <= 1.0
    ensures part as real / whole as real == 1.0 <==> part == whole
  {
    var q := part as real / whole as real;
    assert q * whole as real == part as real;
    CancelAtMost(0.0, q, whole as real);
    CancelAtMost(q, 1.0, whole as real);
    CancelAtMost(1.0, q, whole as real);
  }

  /** More samples taken, more progress: it never falls. */
  lemma ProgressNeverFalls(before: int, after: int, total: int)
    requires before <= after && total > 0
    ensures before as real / total as real <= after as real / total as real
    ensures before < after ==> before as real / total as real < after as real / total as real
  {
    var p, q := before as real / total as real, after as real / total as real;
    CancelAtMost(p, q, total as real);
    CancelAtMost(q, p, total as real);
  }
}
