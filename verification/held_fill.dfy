// What a board held flat at any angle looks like to the guided loop, and how far the
// largest fill computed for upright boards bounds boards turned by a quarter
// (tools/calibrate_camera.py: max_fill_pct, fit_targets, quad_area, contains).
module HeldFills {
  import opened Wrappers
  import opened BoardFit
  import FitTargets
  import opened TargetQueues
  import opened HeldBoards
  import TB = ThresholdBox

  // ----- the view of a held board -----

  function HeldCorner(t: Held, j: int, i: int): Point {
    Point(t.x + Times(j as real, t.ux) + Times(i as real, -t.uy), t.y + Times(j as real, t.uy) + Times(i as real, t.ux))
  }

  /** The corners a detector would report, row by row. */
  function HeldView(t: Held, k: Pattern): seq<Point>
    requires IsBoardPattern(k)
  {
    PositiveProduct(k.cols, k.rows);
    seq(k.cols * k.rows, c requires 0 <= c < k.cols * k.rows => HeldCorner(t, c % k.cols, c / k.cols))
  }

  lemma TimesBetween(j: real, m: real, a: real)
    requires 0.0 <= j <= m && m > 0.0
    ensures MinReal(0.0, Times(m, a)) <= Times(j, a) <= MinReal(0.0, Times(m, a)) + Times(m, AbsReal(a))
  {
    if a >= 0.0 {
      ProductMonotone(j, m, a, a);
    } else {
      ProductMonotone(j, m, -a, -a);
      assert Times(j, -a) == -Times(j, a) && Times(m, -a) == -Times(m, a);
    }
  }

  lemma GridCornerHeld(t: Held, k: Pattern, rect: Rect, j: int, i: int)
    requires IsBoardPattern(k) && InnerIn(t, k, rect) && 0 <= j <= k.cols - 1 && 0 <= i <= k.rows - 1
    ensures rect.Holds(HeldCorner(t, j, i))
  {
    InnerByExtents(t, k, rect);
    Sides(k);
    TimesBetween(j as real, Across(k), t.ux);
    TimesBetween(j as real, Across(k), t.uy);
    TimesBetween(i as real, Down(k), -t.uy);
    TimesBetween(i as real, Down(k), t.ux);
    hide Times, AbsReal, MinReal, InnerIn;
  }

  lemma TimesZero(a: real)
    ensures Times(0.0, a) == 0.0
  {
  }

  /** The four corners of the view, where quad_area takes them. */
  lemma ViewCorners(t: Held, k: Pattern)
    requires IsBoardPattern(k)
    ensures var v := HeldView(t, k);
            && 0 <= k.cols - 1 < |v| && 0 <= k.cols * (k.rows - 1) < |v| == k.cols * k.rows
            && v[0] == HeldCorner(t, 0, 0) && v[k.cols - 1] == HeldCorner(t, k.cols - 1, 0)
            && v[k.cols * k.rows - 1] == HeldCorner(t, k.cols - 1, k.rows - 1)
            && v[k.cols * (k.rows - 1)] == HeldCorner(t, 0, k.rows - 1)
  {
    hide HeldCorner;
    CornerIndices(k);
    DivModOf(k.cols, 0, 0);
    DivModOf(k.cols, 0, k.cols - 1);
    DivModOf(k.cols, k.rows - 1, k.cols - 1);
    DivModOf(k.cols, k.rows - 1, 0);
    assert k.cols * k.rows - 1 == k.cols * (k.rows - 1) + (k.cols - 1);
  }

  /** A view passes `contains` exactly when the board's inner corners are in the box. */
  lemma ViewContained(t: Held, k: Pattern, rect: Rect)
    requires IsBoardPattern(k)
    ensures Contains(rect, HeldView(t, k)) <==> InnerIn(t, k, rect)
  {
    var v := HeldView(t, k);
    if InnerIn(t, k, rect) {
      forall p | p in v ensures rect.Holds(p) {
        var c :| 0 <= c < |v| && v[c] == p;
        GridPosition(c, k.cols, k.rows);
        GridCornerHeld(t, k, rect, c % k.cols, c / k.cols);
      }
    }
    if Contains(rect, v) {
      ViewCorners(t, k);
      CornersHeldMeans(t, k, rect);
    }
  }

  lemma CornersHeldMeans(t: Held, k: Pattern, rect: Rect)
    requires IsBoardPattern(k)
    requires rect.Holds(HeldCorner(t, 0, 0)) && rect.Holds(HeldCorner(t, k.cols - 1, 0))
    requires rect.Holds(HeldCorner(t, k.cols - 1, k.rows - 1)) && rect.Holds(HeldCorner(t, 0, k.rows - 1))
    ensures InnerIn(t, k, rect)
  {
    TimesZero(t.ux);
    TimesZero(t.uy);
    TimesZero(-t.uy);
    hide Times;
  }

  lemma SlantedArea(p: Point, b: Point, c: Point, d: Point, ux: real, uy: real, m: real, n: real)
    requires m > 0.0 && n > 0.0
    requires b == Point(p.x + m * ux, p.y + m * uy) && d == Point(p.x + n * -uy, p.y + n * ux)
    requires c == Point(p.x + m * ux + n * -uy, p.y + m * uy + n * ux)
    ensures QuadArea4(p, b, c, d) == m * n * (ux * ux + uy * uy)
  {
    ShoelaceIsDiagonals(p, b, c, d);
    CrossOfDiagonals(ux, uy, m, n);
    assert m * n * (ux * ux + uy * uy) >= 0.0 by {
      ProductMonotone(0.0, m, 0.0, n);
      Square(ux);
      Square(uy);
      ProductMonotone(0.0, m * n, 0.0, ux * ux + uy * uy);
    }
  }

  lemma Square(x: real)
    ensures x * x >= 0.0
  {
  }

  lemma CrossOfDiagonals(ux: real, uy: real, m: real, n: real)
    ensures (m * ux + n * -uy) * (n * ux - m * uy) - (m * uy + n * ux) * (n * -uy - m * ux)
         == 2.0 * (m * n * (ux * ux + uy * uy))
  {
  }

  /** The area the loop measures of the view. */
  lemma ViewArea(t: Held, k: Pattern)
    requires IsBoardPattern(k)
    ensures QuadArea(HeldView(t, k), k) == Across(k) * Down(k) * (t.ux * t.ux + t.uy * t.uy)
  {
    hide *;
    ViewCorners(t, k);
    Sides(k);
    AreaByCorners(HeldView(t, k), t, k);
  }

  lemma AreaByCorners(v: seq<Point>, t: Held, k: Pattern)
    requires IsBoardPattern(k) && Across(k) >= 1.0 && Down(k) >= 1.0
    requires 0 <= k.cols - 1 < |v| && 0 <= k.cols * (k.rows - 1) < |v| == k.cols * k.rows
    requires v[0] == HeldCorner(t, 0, 0) && v[k.cols - 1] == HeldCorner(t, k.cols - 1, 0)
    requires v[k.cols * k.rows - 1] == HeldCorner(t, k.cols - 1, k.rows - 1)
    requires v[k.cols * (k.rows - 1)] == HeldCorner(t, 0, k.rows - 1)
    ensures QuadArea(v, k) == Across(k) * Down(k) * (t.ux * t.ux + t.uy * t.uy)
  {
    hide QuadArea4, HeldCorner, Across, Down;
    CornersAsSteps(t, k);
    SlantedArea(HeldCorner(t, 0, 0), HeldCorner(t, k.cols - 1, 0), HeldCorner(t, k.cols - 1, k.rows - 1),
                HeldCorner(t, 0, k.rows - 1), t.ux, t.uy, Across(k), Down(k));
  }

  lemma CornersAsSteps(t: Held, k: Pattern)
    ensures HeldCorner(t, 0, 0) == Point(t.x, t.y)
    ensures HeldCorner(t, k.cols - 1, 0) == Point(t.x + Across(k) * t.ux, t.y + Across(k) * t.uy)
    ensures HeldCorner(t, k.cols - 1, k.rows - 1)
         == Point(t.x + Across(k) * t.ux + Down(k) * -t.uy, t.y + Across(k) * t.uy + Down(k) * t.ux)
    ensures HeldCorner(t, 0, k.rows - 1) == Point(t.x + Down(k) * -t.uy, t.y + Down(k) * t.ux)
  {
  }

  /** The fill the loop measures of a held board. */
  function HeldFill(t: Held, k: Pattern, rect: Rect): real
    requires IsBoardPattern(k)
  {
    ViewFill(HeldView(t, k), k, rect)
  }

  // ----- boards held straight -----

  function Turned(k: Pattern): Pattern { Pattern(k.rows, k.cols) }

  function Upright(b: Board): Held { Held(b.x, b.y, b.square, 0.0) }

  /** The same place and square size, with the rows running down. */
  function Quarter(b: Board, k: Pattern): Held {
    Held(b.x + Times(Down(k), b.square), b.y, 0.0, b.square)
  }

  /** Rows run along an axis of the frame. */
  predicate Straight(t: Held) {
    t.ux == 0.0 || t.uy == 0.0
  }

  /** An upright board of a pattern, or of the turned one, in the same place. */
  function BoardOf(t: Held, k: Pattern): Board {
    Board(LowX(t, k), LowY(t, k), Over(t))
  }

  function PatternOf(t: Held, k: Pattern): Pattern {
    if t.uy == 0.0 then k else Turned(k)
  }

  lemma StraightExtents(t: Held, k: Pattern)
    requires Straight(t)
    ensures var q := PatternOf(t, k); SpanX(t, k) == Across(q) * Over(t) && SpanY(t, k) == Down(q) * Over(t)
  {
    hide Across, Down, SpanOf, Overhang;
    TurnedSides(k);
    assert t.uy == 0.0 ==> -t.uy == 0.0;
    SpanAlongRow(t.ux, Across(k), Down(k));
    SpanAlongRow(t.uy, Across(k), Down(k));
    SpanAlongColumn(t.ux, Across(k), Down(k));
    SpanAlongColumn(-t.uy, Across(k), Down(k));
    SpanAlongColumn(t.uy, Across(k), Down(k));
    OverhangOfOne(t.ux);
    OverhangOfOne(t.uy);
  }

  lemma SpanAlongRow(a: real, m: real, n: real)
    ensures SpanOf(a, 0.0, m, n) == m * AbsReal(a)
  {
  }

  lemma SpanAlongColumn(b: real, m: real, n: real)
    ensures SpanOf(0.0, b, m, n) == n * AbsReal(b) && AbsReal(b) == AbsReal(-b)
  {
  }

  lemma OverhangOfOne(a: real)
    ensures Overhang(a, 0.0) == Overhang(0.0, a) == AbsReal(a)
  {
  }

  lemma TurnedSides(k: Pattern)
    ensures Across(Turned(k)) == Down(k) && Down(Turned(k)) == Across(k)
  {
  }

  lemma TurnedBySpans(b: Board, k: Pattern, rect: Rect, width: int, height: int)
    requires Fits(b, Turned(k), rect, width, height)
    ensures b.square > 0.0
    ensures AxisFits(rect.x1, rect.x2, width, b.x, Down(k) * b.square, b.square)
    ensures AxisFits(rect.y1, rect.y2, height, b.y, Across(k) * b.square, b.square)
  {
  }

  lemma StraightFits(t: Held, k: Pattern, rect: Rect, width: int, height: int)
    requires IsBoardPattern(k) && Straight(t) && FitsHeld(t, k, rect, width, height)
    ensures Fits(BoardOf(t, k), PatternOf(t, k), rect, width, height)
  {
    hide FitsHeld, LowX, LowY, SpanX, SpanY;
    HeldByExtents(t, k, rect, width, height);
    StraightExtents(t, k);
  }

  lemma UprightFits(b: Board, k: Pattern, rect: Rect, width: int, height: int)
    requires IsBoardPattern(k) && Fits(b, k, rect, width, height)
    ensures FitsHeld(Upright(b), k, rect, width, height)
  {
    UprightExtents(b, k);
    hide FitsHeld, LowX, LowY, SpanX, SpanY, Over;
    HeldByExtents(Upright(b), k, rect, width, height);
  }

  lemma UprightExtents(b: Board, k: Pattern)
    requires IsBoardPattern(k) && b.square > 0.0
    ensures var t := Upright(b);
            && LowX(t, k) == b.x && LowY(t, k) == b.y && Over(t) == b.square
            && SpanX(t, k) == Across(k) * b.square && SpanY(t, k) == Down(k) * b.square
  {
    Sides(k);
    hide Across, Down;
    ProductMonotone(0.0, Across(k), 0.0, b.square);
    ProductMonotone(0.0, Down(k), 0.0, b.square);
  }

  lemma QuarterFits(b: Board, k: Pattern, rect: Rect, width: int, height: int)
    requires IsBoardPattern(k) && Fits(b, Turned(k), rect, width, height)
    ensures FitsHeld(Quarter(b, k), k, rect, width, height)
  {
    hide FitsHeld, LowX, LowY, SpanX, SpanY, Over, Times, Across, Down, Fits, AxisFits;
    TurnedBySpans(b, k, rect, width, height);
    QuarterExtents(b, k);
    HeldByExtents(Quarter(b, k), k, rect, width, height);
  }

  lemma QuarterExtents(b: Board, k: Pattern)
    requires IsBoardPattern(k) && b.square > 0.0
    ensures var t := Quarter(b, k);
            && LowX(t, k) == b.x && LowY(t, k) == b.y && Over(t) == b.square
            && SpanX(t, k) == Down(k) * b.square && SpanY(t, k) == Across(k) * b.square
  {
    Sides(k);
    hide Across, Down;
    ProductMonotone(0.0, Across(k), 0.0, b.square);
    ProductMonotone(0.0, Down(k), 0.0, b.square);
    assert Down(k) * -b.square == -(Down(k) * b.square);
  }

  /** A straight board fills what the upright board in its place does. */
  lemma StraightFill(t: Held, k: Pattern, rect: Rect)
    requires IsBoardPattern(k) && Straight(t) && rect.Width() > 0 && rect.Height() > 0
    ensures HeldFill(t, k, rect) == BoardFill(BoardOf(t, k), PatternOf(t, k), rect)
  {
    var area := Across(k) * Down(k) * (t.ux * t.ux + t.uy * t.uy);
    ViewArea(t, k);
    ViewFillOfArea(HeldView(t, k), k, rect, area);
    StraightArea(t, k);
    hide HeldView, SpanArea, Percent, Across, Down;
  }

  lemma StraightArea(t: Held, k: Pattern)
    requires Straight(t)
    ensures Across(k) * Down(k) * (t.ux * t.ux + t.uy * t.uy)
         == SpanArea((PatternOf(t, k).cols - 1) as real, (PatternOf(t, k).rows - 1) as real, BoardOf(t, k).square)
  {
    hide SpanArea, Overhang, LowX, LowY;
    OverhangOfOne(t.ux);
    OverhangOfOne(t.uy);
    SquareOfAbs(t.ux);
    SquareOfAbs(t.uy);
    AreaOfSquares(Across(k), Down(k), Over(t));
  }

  lemma SquareOfAbs(x: real)
    ensures AbsReal(x) * AbsReal(x) == x * x && (x == 0.0 ==> x * x == 0.0)
  {
  }

  lemma AreaOfSquares(m: real, n: real, s: real)
    ensures m * n * (s * s) == SpanArea(m, n, s) == SpanArea(n, m, s)
  {
  }

  // ----- how far the computed maximum reaches -----

  /** The largest fill of boards held straight, whichever way: the larger of what
      max_fill_pct computes for the pattern and for the turned one. */
  lemma StraightFillExact(t: Held, rect: Rect, width: int, height: int, k: Pattern)
    requires IsBoardPattern(k) && rect.Width() > 0 && rect.Height() > 0
    requires Straight(t) && FitsHeld(t, k, rect, width, height)
    ensures MaxFillPct(rect, width, height, PatternOf(t, k)).Success?
    ensures 0.0 < HeldFill(t, k, rect) <= MaxFillPct(rect, width, height, PatternOf(t, k)).value
  {
    StraightFits(t, k, rect, width, height);
    StraightFill(t, k, rect);
    hide FitsHeld, Fits, MaxFillPct, HeldFill, BoardFill;
    MaxFillExact(rect, width, height, PatternOf(t, k));
  }

  /** A turned board that attains what is computed for the turned pattern. */
  lemma TurnedAttains(rect: Rect, width: int, height: int, k: Pattern) returns (t: Held)
    requires IsBoardPattern(k) && rect.Width() > 0 && rect.Height() > 0
    requires MaxFillPct(rect, width, height, Turned(k)).Success?
    requires MaxFillPct(rect, width, height, Turned(k)).value > 0.0
    ensures Straight(t) && FitsHeld(t, k, rect, width, height)
    ensures HeldFill(t, k, rect) == MaxFillPct(rect, width, height, Turned(k)).value
  {
    hide FitsHeld, Fits, MaxFillPct, HeldFill, BoardFill, LowX, LowY, Over;
    MaxFillExact(rect, width, height, Turned(k));
    var b: Board :| Fits(b, Turned(k), rect, width, height)
                    && BoardFill(b, Turned(k), rect) == MaxFillPct(rect, width, height, Turned(k)).value;
    SquareOfFitting(b, Turned(k), rect, width, height);
    QuarterFits(b, k, rect, width, height);
    QuarterExtents(b, k);
    t := Quarter(b, k);
    assert BoardOf(t, k) == b && PatternOf(t, k) == Turned(k);
    StraightFill(t, k, rect);
  }

  lemma SquareOfFitting(b: Board, k: Pattern, rect: Rect, width: int, height: int)
    requires Fits(b, k, rect, width, height)
    ensures b.square > 0.0
  {
  }

  /** max_fill_pct bounds what boards held straight cover exactly when its figure for
      the turned pattern is no larger. */
  lemma MaxFillBoundsExactly(rect: Rect, width: int, height: int, k: Pattern)
    requires IsBoardPattern(k) && rect.Width() > 0 && rect.Height() > 0
    ensures MaxFillPct(rect, width, height, k).Success? && MaxFillPct(rect, width, height, Turned(k)).Success?
    ensures MaxFillPct(rect, width, height, Turned(k)).value <= MaxFillPct(rect, width, height, k).value <==>
      forall t: Held :: Straight(t) && FitsHeld(t, k, rect, width, height) ==>
        HeldFill(t, k, rect) <= MaxFillPct(rect, width, height, k).value
  {
    hide FitsHeld, Fits, MaxFillPct, HeldFill, BoardFill, Straight;
    MaxFillExact(rect, width, height, k);
    MaxFillExact(rect, width, height, Turned(k));
    MaxFillNotNegative(rect, width, height, k);
    var upright, turned := MaxFillPct(rect, width, height, k).value, MaxFillPct(rect, width, height, Turned(k)).value;
    if turned <= upright {
      forall t: Held | Straight(t) && FitsHeld(t, k, rect, width, height) ensures HeldFill(t, k, rect) <= upright {
        StraightFillExact(t, rect, width, height, k);
      }
    } else {
      var t := TurnedAttains(rect, width, height, k);
      assert HeldFill(t, k, rect) > upright;
    }
  }

  lemma MaxFillNotNegative(rect: Rect, width: int, height: int, k: Pattern)
    requires IsBoardPattern(k) && rect.Width() > 0 && rect.Height() > 0
    ensures MaxFillPct(rect, width, height, k).Success? && MaxFillPct(rect, width, height, k).value >= 0.0
  {
    var g := SceneOf(rect, width, height, k);
    MaxFillOfScene(g, rect, width, height, k);
    BestSpanNonNegative(g);
    var square := SquareOfSpan(g.m, g.BestSpan());
    FillOfBoard(g, square, g.BestSpan());
    CancelAtMost(0.0, square, g.m);
    FillGrowsWithSquare(g, 0.0, square);
    NoSpanNoFill(g, 0.0);
  }

  /** A dropped target is out of reach of every board held straight exactly when the
      turned pattern's figure, too, is below the floor once the headroom is taken off. */
  lemma DroppedIsOutOfReachExactly(t: Target, width: int, height: int, k: Pattern)
    requires IsBoardPattern(k) && PixelRect(t, width, height).Width() > 0 && PixelRect(t, width, height).Height() > 0
    requires !FitTargets.Raises(t, width, height, k) && !FitTargets.Kept(t, width, height, k)
    ensures !FitTargets.Raises(t, width, height, Turned(k))
    ensures !FitTargets.Kept(t, width, height, Turned(k)) <==>
      forall b: Held :: Straight(b) && FitsHeld(b, k, PixelRect(t, width, height), width, height) ==>
        HeldFill(b, k, PixelRect(t, width, height)) * FILL_HEADROOM < FILL_FLOOR as real
  {
    hide FitsHeld, Fits, MaxFillPct, HeldFill, BoardFill, Straight, PixelRect;
    var rect := PixelRect(t, width, height);
    MaxFillExact(rect, width, height, Turned(k));
    if !FitTargets.Kept(t, width, height, Turned(k)) {
      forall b: Held | Straight(b) && FitsHeld(b, k, rect, width, height)
        ensures HeldFill(b, k, rect) * FILL_HEADROOM < FILL_FLOOR as real
      {
        StraightFillExact(b, rect, width, height, k);
      }
    } else {
      var b := TurnedAttains(rect, width, height, k);
      assert HeldFill(b, k, rect) * FILL_HEADROOM >= FILL_FLOOR as real;
    }
  }

  // ----- boards the code does not foresee -----

  const DEFAULT_PATTERN := Pattern(9, 6)
  const FULL_HEIGHT := Target(25, 0, 75, 100, 45, 2)

  lemma FillOfTurned(t: Held, k: Pattern, rect: Rect, area: real, whole: real)
    requires IsBoardPattern(k) && rect.Width() > 0 && rect.Height() > 0
    requires Across(k) * Down(k) * (t.ux * t.ux + t.uy * t.uy) == area
    requires (rect.Width() * rect.Height()) as real == whole != 0.0
    ensures HeldFill(t, k, rect) == Percent(area, whole)
  {
    hide HeldView, QuadArea, Percent, ViewFill;
    ViewArea(t, k);
    ViewCorners(t, k);
    ViewFillOfArea(HeldView(t, k), k, rect, area);
  }

  /** A board that spans the box one way or the other is the largest that fits. */
  lemma WidestBoard(b: Board, rect: Rect, width: int, height: int, k: Pattern)
    requires IsBoardPattern(k) && rect.Width() > 0 && rect.Height() > 0 && Fits(b, k, rect, width, height)
    requires Across(k) * b.square == rect.Width() as real || Down(k) * b.square == rect.Height() as real
    ensures MaxFillPct(rect, width, height, k) == Success(BoardFill(b, k, rect))
  {
    hide MaxFillPct, BoardFill, Fits, Across, Down;
    MaxFillExact(rect, width, height, k);
    NoLarger(b, rect, width, height, k);
    Sides(k);
    var most :| Fits(most, k, rect, width, height)
                && BoardFill(most, k, rect) == MaxFillPct(rect, width, height, k).value;
    NoLarger(most, rect, width, height, k);
    if Across(k) * b.square == rect.Width() as real {
      SmallerSquare(Across(k), most.square, b.square);
    } else {
      SmallerSquare(Down(k), most.square, b.square);
    }
    SmallerFillsLess(most, b, k, rect);
  }

  lemma NoLarger(b: Board, rect: Rect, width: int, height: int, k: Pattern)
    requires Fits(b, k, rect, width, height)
    ensures Across(k) * b.square <= rect.Width() as real && Down(k) * b.square <= rect.Height() as real
    ensures b.square > 0.0
  {
  }

  lemma SmallerFillsLess(a: Board, b: Board, k: Pattern, rect: Rect)
    requires IsBoardPattern(k) && rect.Width() > 0 && rect.Height() > 0 && 0.0 < a.square <= b.square
    ensures BoardFill(a, k, rect) <= BoardFill(b, k, rect)
  {
    var m, n, whole := Across(k), Down(k), (rect.Width() * rect.Height()) as real;
    PositiveProduct(rect.Width(), rect.Height());
    ProductMonotone(m, m, a.square, b.square);
    ProductMonotone(n, n, a.square, b.square);
    ProductMonotone(m * a.square, m * b.square, n * a.square, n * b.square);
    QuotientMonotone(100.0 * SpanArea(m, n, a.square), 100.0 * SpanArea(m, n, b.square), whole);
  }

  /** A shipped target, the shipped frame size and the default pattern: a board turned by
      a quarter fits, passes `contains` and fills more than 57 percent where no more
      than 42 was computed, its outer squares leave the threshold region, and the
      white border runs through them, 300 pixels from the edge of the frame. */
  lemma TurnedBoardLeavesRegion(rect: Rect, t: Held)
    requires rect == Rect(410, 0, 1230, 1232) && t == Held(1010.0, 140.0, 0.0, 120.0)
    ensures rect == PixelRect(FULL_HEIGHT, 1640, 1232) && FULL_HEIGHT in FitTargets.TARGETS_STANDARD
    ensures FitsHeld(t, DEFAULT_PATTERN, rect, 1640, 1232) && Contains(rect, HeldView(t, DEFAULT_PATTERN))
    ensures MaxFillPct(rect, 1640, 1232, DEFAULT_PATTERN).Success?
    ensures MaxFillPct(rect, 1640, 1232, DEFAULT_PATTERN).value < 42.0 && HeldFill(t, DEFAULT_PATTERN, rect) > 57.0
    ensures Escapes(rect, 1640, 1232, DEFAULT_PATTERN, 0)
    ensures LowX(t, DEFAULT_PATTERN) - Over(t) == 290.0 && LowY(t, DEFAULT_PATTERN) - Over(t) == 20.0
    ensures TB.ClipToFrame(ThresholdRegion(rect, 1640, 1232, DEFAULT_PATTERN), 1640, 1232).OnBorder(600, 300)
  {
    hide *;
    TurnedFits(rect, t);
    TurnedExtents(rect, t);
    RegionOfFullHeight(rect);
    TurnedCovers(rect, t);
    ComputedIsLess(rect);
    ViewContained(t, DEFAULT_PATTERN, rect);
  }

  lemma TurnedCovers(rect: Rect, t: Held)
    requires rect == Rect(410, 0, 1230, 1232) && t == Held(1010.0, 140.0, 0.0, 120.0)
    ensures HeldFill(t, DEFAULT_PATTERN, rect) > 57.0
  {
    hide HeldFill;
    FillOfTurned(t, DEFAULT_PATTERN, rect, 576000.0, 1010240.0);
  }

  lemma TurnedExtents(rect: Rect, t: Held)
    requires rect == Rect(410, 0, 1230, 1232) && t == Held(1010.0, 140.0, 0.0, 120.0)
    ensures LowX(t, DEFAULT_PATTERN) - Over(t) == 290.0 && LowY(t, DEFAULT_PATTERN) - Over(t) == 20.0
    ensures rect == PixelRect(FULL_HEIGHT, 1640, 1232) && FULL_HEIGHT in FitTargets.TARGETS_STANDARD
    ensures IsBoardPattern(DEFAULT_PATTERN)
  {
    assert FitTargets.TARGETS_STANDARD[8] == FULL_HEIGHT;
  }

  lemma RegionOfFullHeight(rect: Rect)
    requires rect == Rect(410, 0, 1230, 1232)
    ensures Escapes(rect, 1640, 1232, DEFAULT_PATTERN, 0)
    ensures TB.ClipToFrame(ThresholdRegion(rect, 1640, 1232, DEFAULT_PATTERN), 1640, 1232).OnBorder(600, 300)
  {
    FullHeightPads(rect);
    hide Pad;
  }

  lemma FullHeightPads(rect: Rect)
    requires rect == Rect(410, 0, 1230, 1232)
    ensures Pad(rect.Width(), DEFAULT_PATTERN.cols) == 110 && Pad(rect.Height(), DEFAULT_PATTERN.rows) == 254
  {
  }

  lemma TurnedFits(rect: Rect, t: Held)
    requires rect == Rect(410, 0, 1230, 1232) && t == Held(1010.0, 140.0, 0.0, 120.0)
    ensures FitsHeld(t, DEFAULT_PATTERN, rect, 1640, 1232) && InnerIn(t, DEFAULT_PATTERN, rect)
  {
  }

  lemma ComputedIsLess(rect: Rect)
    requires rect == Rect(410, 0, 1230, 1232)
    ensures MaxFillPct(rect, 1640, 1232, DEFAULT_PATTERN).Success?
    ensures MaxFillPct(rect, 1640, 1232, DEFAULT_PATTERN).value < 42.0
  {
    hide MaxFillPct;
    var b := Board(410.0, 200.0, 102.5);
    assert BoardFill(b, DEFAULT_PATTERN, rect) == Percent(420250.0, 1010240.0);
    WidestBoard(b, rect, 1640, 1232, DEFAULT_PATTERN);
  }

  /** In a portrait frame the same target is dropped, although a turned board fills 45
      percent of it. */
  lemma DroppedYetReachable(rect: Rect, t: Held)
    requires rect == Rect(180, 0, 540, 1280) && t == Held(540.0, 300.0, 0.0, 72.0)
    ensures rect == PixelRect(FULL_HEIGHT, 720, 1280)
    ensures !FitTargets.Raises(FULL_HEIGHT, 720, 1280, DEFAULT_PATTERN)
    ensures !FitTargets.Kept(FULL_HEIGHT, 720, 1280, DEFAULT_PATTERN)
    ensures FitsHeld(t, DEFAULT_PATTERN, rect, 720, 1280) && HeldFill(t, DEFAULT_PATTERN, rect) >= 45.0
  {
    hide HeldView, HeldFill, MaxFillPct;
    FillOfTurned(t, DEFAULT_PATTERN, rect, 207360.0, 460800.0);
    var b := Board(180.0, 100.0, 45.0);
    assert BoardFill(b, DEFAULT_PATTERN, rect) == Percent(81000.0, 460800.0);
    WidestBoard(b, rect, 720, 1280, DEFAULT_PATTERN);
  }

  /** At other angles a long pattern can cover more than it does held straight. */
  lemma SlantedBoardCoversMore(rect: Rect, k: Pattern, t: Held)
    requires rect == Rect(500, 500, 1500, 1500) && k == Pattern(21, 2) && t == Held(540.0, 520.0, 48.0, 36.0)
    ensures FitsHeld(t, k, rect, 2000, 2000) && HeldFill(t, k, rect) > 7.0
    ensures MaxFillPct(rect, 2000, 2000, k) == Success(5.0) == MaxFillPct(rect, 2000, 2000, Turned(k))
  {
    hide HeldView, HeldFill, MaxFillPct;
    FillOfTurned(t, k, rect, 72000.0, 1000000.0);
    WidestBoard(Board(500.0, 600.0, 50.0), rect, 2000, 2000, k);
    WidestBoard(Board(600.0, 500.0, 50.0), rect, 2000, 2000, Turned(k));
  }
}
