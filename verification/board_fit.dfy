// Which boards fit a target (tools/calibrate_camera.py): _axis_limit,
// max_fill_pct, fit_targets, quad_area and the placement test of a view.
module BoardFit {
  import opened Wrappers

  const FILL_HEADROOM := 0.85
  const FILL_FLOOR := 15

  datatype Point = Point(x: real, y: real)

  /** A pixel rectangle, corners included. */
  datatype Rect = Rect(x1: int, y1: int, x2: int, y2: int) {
    function Width(): int { x2 - x1 }

    function Height(): int { y2 - y1 }

    predicate Holds(p: Point) {
      x1 as real <= p.x <= x2 as real && y1 as real <= p.y <= y2 as real
    }
  }

  /** One entry of a target table. The corners are percentages of the frame's sides,
      `fill` is the percentage of the rectangle a board must cover. */
  datatype Target = Target(x1: int, y1: int, x2: int, y2: int, fill: int, samples: int)

  /** Python's floor division by a positive divisor. */
  function FloorDiv(a: int, b: int): int
    requires b > 0
  {
    a / b
  }

  function PixelRect(t: Target, width: int, height: int): Rect {
    Rect(FloorDiv(t.x1 * width, 100), FloorDiv(t.y1 * height, 100),
         FloorDiv(t.x2 * width, 100), FloorDiv(t.y2 * height, 100))
  }

  /** Each corner of the box is the percentage of its own side, rounded down. */
  lemma PixelRectExactly(t: Target, width: int, height: int)
    ensures var r := PixelRect(t, width, height);
      && r.x1 * 100 <= t.x1 * width < r.x1 * 100 + 100 && r.x2 * 100 <= t.x2 * width < r.x2 * 100 + 100
      && r.y1 * 100 <= t.y1 * height < r.y1 * 100 + 100 && r.y2 * 100 <= t.y2 * height < r.y2 * 100 + 100
  {
  }

  function MinReal(a: real, b: real): real { if a <= b then a else b }

  function MaxReal(a: real, b: real): real { if a >= b then a else b }

  function AtLeastOne(n: int): int { if n < 1 then 1 else n }

  // ----- one axis -----

  /** Largest inner-corner span one axis allows; `c` is the share one square has of
      the span. */
  function AxisLimit(b1: real, b2: real, frame: real, c: real): real
    requires c >= 0.0
  {
    var limit := MinReal(MinReal(b2 - b1, (frame - b1) / (1.0 + c)),
                         MinReal(b2 / (1.0 + c), frame / (1.0 + 2.0 * c)));
    MaxReal(limit, 0.0)
  }

  /** A span starting at `p` keeps its corners in [b1, b2] and its outer ring, one
      square further on each side, in [0, frame]. */
  predicate Placed(b1: real, b2: real, frame: real, c: real, span: real, p: real) {
    b1 <= p && p + span <= b2 && 0.0 <= p - c * span && p + span + c * span <= frame
  }

  lemma CancelAtMost(r: real, s: real, d: real)
    requires d > 0.0
    ensures r <= s <==> r * d <= s * d
  {
  }

  lemma AtMostEach(s: real, a: real, b: real, c: real, d: real)
    requires s > 0.0
    ensures s <= MaxReal(MinReal(MinReal(a, b), MinReal(c, d)), 0.0) <==> s <= a && s <= b && s <= c && s <= d
  {
  }

  /** The three quotients inside the limit, known by what they multiply to. */
  lemma LimitParts(b1: real, b2: real, frame: real, c: real) returns (near: real, far: real, outer: real)
    requires c >= 0.0
    ensures near * (1.0 + c) == frame - b1 && far * (1.0 + c) == b2 && outer * (1.0 + 2.0 * c) == frame
    ensures AxisLimit(b1, b2, frame, c) == MaxReal(MinReal(MinReal(b2 - b1, near), MinReal(far, outer)), 0.0)
  {
    near, far, outer := (frame - b1) / (1.0 + c), b2 / (1.0 + c), frame / (1.0 + 2.0 * c);
  }

  /** A span is at most a quotient when the span with its rings fits the room. */
  lemma RoomForRings(span: real, quotient: real, rings: real, room: real)
    requires rings >= 0.0 && quotient * (1.0 + rings) == room
    ensures span <= quotient <==> span + rings * span <= room
  {
    CancelAtMost(span, quotient, 1.0 + rings);
  }

  /** The four limits, as inequalities on the span and its ring. */
  predicate SpanFits(b1: real, b2: real, frame: real, span: real, ring: real) {
    && span <= b2 - b1
    && span + ring <= frame - b1
    && span + ring <= b2
    && span + 2.0 * ring <= frame
  }

  lemma PartsDecide(b1: real, b2: real, frame: real, c: real, near: real, far: real, outer: real, span: real)
    requires c >= 0.0 && span > 0.0
    requires near * (1.0 + c) == frame - b1 && far * (1.0 + c) == b2 && outer * (1.0 + 2.0 * c) == frame
    ensures span <= MaxReal(MinReal(MinReal(b2 - b1, near), MinReal(far, outer)), 0.0)
       <==> SpanFits(b1, b2, frame, span, c * span)
  {
    hide MinReal, MaxReal;
    AtMostEach(span, b2 - b1, near, far, outer);
    RoomForRings(span, near, c, frame - b1);
    RoomForRings(span, far, c, b2);
    RoomForRings(span, outer, 2.0 * c, frame);
  }

  lemma LimitAsInequalities(b1: real, b2: real, frame: real, c: real, span: real, ring: real)
    requires c >= 0.0 && span > 0.0 && c * span == ring
    ensures span <= AxisLimit(b1, b2, frame, c) <==> SpanFits(b1, b2, frame, span, ring)
  {
    var near, far, outer := LimitParts(b1, b2, frame, c);
    PartsDecide(b1, b2, frame, c, near, far, outer, span);
  }

  /** Sound and complete: a span has a placement exactly when it is at most the
      limit. */
  lemma AxisLimitExact(b1: real, b2: real, frame: real, c: real, span: real)
    requires c >= 0.0 && span > 0.0
    ensures span <= AxisLimit(b1, b2, frame, c) <==> exists p :: Placed(b1, b2, frame, c, span, p)
    ensures span <= AxisLimit(b1, b2, frame, c) ==> Placed(b1, b2, frame, c, span, MaxReal(b1, c * span))
  {
    LimitAsInequalities(b1, b2, frame, c, span, c * span);
    if span <= AxisLimit(b1, b2, frame, c) {
      assert Placed(b1, b2, frame, c, span, MaxReal(b1, c * span));
    }
  }

  // ----- the rigid board -----

  /** A board held upright, its rows along the frame's: first inner corner and square
      size. Boards at other angles are in `HeldBoards`. */
  datatype Board = Board(x: real, y: real, square: real)

  /** Placement of one axis of a board `n` squares long between its corners. */
  predicate SquarePlaced(b1: real, b2: real, frame: real, n: real, square: real, p: real) {
    b1 <= p && p + n * square <= b2 && 0.0 <= p - square && p + n * square + square <= frame
  }

  /** `limit` decides placement of squares of this size. */
  ghost predicate Decides(b1: real, b2: real, frame: real, n: real, limit: real, square: real, p: real) {
    && (SquarePlaced(b1, b2, frame, n, square, p) ==> n * square <= limit)
    && (n * square <= limit ==> SquarePlaced(b1, b2, frame, n, square, MaxReal(b1, square)))
  }

  lemma LimitDecides(b1: real, b2: real, frame: real, n: real, c: real, square: real, p: real)
    requires n > 0.0 && c >= 0.0 && c * n == 1.0 && square > 0.0
    ensures Decides(b1, b2, frame, n, AxisLimit(b1, b2, frame, c), square, p)
  {
    var span := n * square;
    SpanPositive(n, square);
    assert c * span == square by { assert c * (n * square) == (c * n) * square; }
    LimitAsInequalities(b1, b2, frame, c, span, square);
    InequalitiesDecide(b1, b2, frame, n, AxisLimit(b1, b2, frame, c), square, span, p);
  }

  lemma InequalitiesDecide(b1: real, b2: real, frame: real, n: real, limit: real, square: real, span: real, p: real)
    requires square > 0.0 && span == n * square
    requires span <= limit <==> SpanFits(b1, b2, frame, span, square)
    ensures Decides(b1, b2, frame, n, limit, square, p)
  {
  }

  function Percent(part: real, whole: real): real
    requires whole != 0.0
  {
    100.0 * part / whole
  }

  /** Area spanned by the inner corners, m squares by n. */
  function SpanArea(m: real, n: real, square: real): real {
    (m * square) * (n * square)
  }

  /** Both limits as a span across, of which a board of this shape meets the smaller. */
  function BindingSpan(limitX: real, limitY: real, aspect: real): real {
    MinReal(limitX, aspect * limitY)
  }

  /** Area a board with this span across covers, from its aspect. */
  function AreaOfSpan(span: real, aspect: real): real
    requires aspect != 0.0
  {
    span * span / aspect
  }

  /** A target box in a frame, for a board `m` squares across and `n` down
      between its outermost inner corners, with the two axis limits. */
  datatype Scene = Scene(x1: real, x2: real, y1: real, y2: real, w: real, h: real, area: real,
                         m: real, n: real, limitX: real, limitY: real, aspect: real) {
    ghost predicate Valid() {
      && m > 0.0 && n > 0.0 && area > 0.0 && limitX >= 0.0 && limitY >= 0.0
      && aspect > 0.0 && aspect * n == m
      && (forall square, p :: square > 0.0 ==> Decides(x1, x2, w, m, limitX, square, p))
      && (forall square, p :: square > 0.0 ==> Decides(y1, y2, h, n, limitY, square, p))
    }

    function BestSpan(): real {
      BindingSpan(limitX, limitY, aspect)
    }

    /** The board's corners lie in the box and the whole board, one square past
        the corners on every side, lies in the frame. */
    ghost predicate Feasible(b: Board) {
      b.square > 0.0 && SquarePlaced(x1, x2, w, m, b.square, b.x) && SquarePlaced(y1, y2, h, n, b.square, b.y)
    }

    /** Share of the box, in percent, that a board's inner corners span. */
    function Fill(square: real): real
      requires area > 0.0
    {
      Percent(SpanArea(m, n, square), area)
    }

    /** The same for a span across, as the program computes it. */
    function FillOfSpan(span: real): real
      requires area > 0.0 && aspect > 0.0
    {
      Percent(AreaOfSpan(span, aspect), area)
    }

    /** Where a board of this square size goes. */
    function Place(square: real): Board {
      Board(MaxReal(x1, square), MaxReal(y1, square), square)
    }
  }

  /** The limit down, seen as a limit across. */
  lemma AspectOfSpan(m: real, n: real, aspect: real, square: real, sy: real)
    requires aspect > 0.0 && aspect * n == m
    ensures m * square <= aspect * sy <==> n * square <= sy
  {
    assert m * square == (n * square) * aspect;
    CancelAtMost(n * square, sy, aspect);
  }

  lemma SpanPositive(n: real, square: real)
    requires n > 0.0 && square > 0.0
    ensures n * square > 0.0
  {
  }

  lemma BestSpanSound(g: Scene, square: real)
    requires g.Valid() && square > 0.0 && g.m * square <= g.BestSpan()
    ensures g.Feasible(g.Place(square))
  {
    AspectOfSpan(g.m, g.n, g.aspect, square, g.limitY);
    assert Decides(g.x1, g.x2, g.w, g.m, g.limitX, square, 0.0);
    assert Decides(g.y1, g.y2, g.h, g.n, g.limitY, square, 0.0);
  }

  lemma BestSpanComplete(g: Scene, b: Board)
    requires g.Valid() && g.Feasible(b)
    ensures g.m * b.square <= g.BestSpan()
  {
    assert Decides(g.x1, g.x2, g.w, g.m, g.limitX, b.square, b.x);
    assert Decides(g.y1, g.y2, g.h, g.n, g.limitY, b.square, b.y);
    AspectOfSpan(g.m, g.n, g.aspect, b.square, g.limitY);
  }

  /** Some placement of a board with this square size fits exactly when its span
      across is at most the best span. */
  lemma BestSpanExact(g: Scene, square: real)
    requires g.Valid() && square > 0.0
    ensures g.m * square <= g.BestSpan() <==> exists b: Board :: b.square == square && g.Feasible(b)
  {
    if g.m * square <= g.BestSpan() {
      BestSpanSound(g, square);
      assert g.Place(square).square == square;
    }
    if b: Board :| b.square == square && g.Feasible(b) {
      BestSpanComplete(g, b);
    }
  }

  lemma AreaOfSpanIsSpanArea(m: real, n: real, aspect: real, square: real, span: real)
    requires aspect > 0.0 && aspect * n == m && m * square == span
    ensures AreaOfSpan(span, aspect) == SpanArea(m, n, square)
  {
    assert span * span == ((m * square) * (n * square)) * aspect;
    DivideBack((m * square) * (n * square), aspect);
  }

  lemma DivideBack(x: real, d: real)
    requires d > 0.0
    ensures x * d / d == x
  {
  }

  /** The fill computed from a board's span is the board's fill. */
  lemma FillOfBoard(g: Scene, square: real, span: real)
    requires g.Valid() && g.m * square == span
    ensures g.FillOfSpan(span) == g.Fill(square)
  {
    AreaOfSpanIsSpanArea(g.m, g.n, g.aspect, square, span);
  }

  /** A square size with exactly this span. */
  lemma SquareOfSpan(m: real, span: real) returns (square: real)
    requires m > 0.0
    ensures m * square == span && (square > 0.0 <==> span > 0.0)
  {
    square := span / m;
    CancelAtMost(square, 0.0, m);
  }

  lemma FillGrowsWithSquare(g: Scene, a: real, b: real)
    requires g.Valid() && 0.0 <= a <= b
    ensures 0.0 <= g.Fill(a) <= g.Fill(b)
  {
    ProductMonotone(g.m, g.m, a, b);
    ProductMonotone(g.n, g.n, a, b);
    ProductMonotone(g.m * a, g.m * b, g.n * a, g.n * b);
    QuotientMonotone(0.0, 100.0 * SpanArea(g.m, g.n, a), g.area);
    QuotientMonotone(100.0 * SpanArea(g.m, g.n, a), 100.0 * SpanArea(g.m, g.n, b), g.area);
  }

  lemma ProductMonotone(a: real, b: real, c: real, d: real)
    requires 0.0 <= a <= b && 0.0 <= c <= d
    ensures 0.0 <= a * c <= b * d
  {
  }

  lemma QuotientMonotone(a: real, b: real, d: real)
    requires a <= b && d > 0.0
    ensures a / d <= b / d
  {
  }

  lemma BestSpanNonNegative(g: Scene)
    requires g.Valid()
    ensures g.BestSpan() >= 0.0
  {
    ProductMonotone(0.0, g.aspect, 0.0, g.limitY);
  }

  /** No feasible board covers more of the box. */
  lemma FillAtMostBest(g: Scene, b: Board)
    requires g.Valid() && g.Feasible(b)
    ensures g.Fill(b.square) <= g.FillOfSpan(g.BestSpan())
  {
    BestSpanComplete(g, b);
    var square := SquareOfSpan(g.m, g.BestSpan());
    SmallerSquare(g.m, b.square, square);
    FillGrowsWithSquare(g, b.square, square);
    FillOfBoard(g, square, g.BestSpan());
  }

  lemma SmallerSquare(m: real, a: real, b: real)
    requires m > 0.0 && m * a <= m * b
    ensures a <= b
  {
    CancelAtMost(a, b, m);
  }

  /** When it is positive, a feasible board covers exactly that much. */
  lemma BestIsAttained(g: Scene) returns (b: Board)
    requires g.Valid() && g.FillOfSpan(g.BestSpan()) > 0.0
    ensures g.Feasible(b) && g.Fill(b.square) == g.FillOfSpan(g.BestSpan())
  {
    BestSpanNonNegative(g);
    var square := SquareOfSpan(g.m, g.BestSpan());
    b := g.Place(square);
    FillOfBoard(g, square, g.BestSpan());
    if g.BestSpan() == 0.0 {
      NoSpanNoFill(g, square);
    }
    BestSpanSound(g, square);
  }

  lemma NoSpanNoFill(g: Scene, square: real)
    requires g.Valid() && g.m * square == 0.0
    ensures g.Fill(square) == 0.0
  {
  }

  // ----- max_fill_pct -----

  /** Inner corners across and down. */
  datatype Pattern = Pattern(cols: int, rows: int)

  /** A chessboard has at least two inner corners each way. */
  predicate IsBoardPattern(k: Pattern) {
    k.cols >= 2 && k.rows >= 2
  }

  /** The share of the inner span that one square takes. */
  function SquareShare(corners: int): (c: real)
    ensures c > 0.0
    ensures corners >= 2 ==> c * (corners - 1) as real == 1.0
  {
    CancelAtMost(1.0 / AtLeastOne(corners - 1) as real, 0.0, AtLeastOne(corners - 1) as real);
    1.0 / AtLeastOne(corners - 1) as real
  }

  function Aspect(k: Pattern): (aspect: real)
    ensures aspect * AtLeastOne(k.rows - 1) as real == (k.cols - 1) as real
  {
    (k.cols - 1) as real / AtLeastOne(k.rows - 1) as real
  }

  function LimitX(rect: Rect, frameW: int, k: Pattern): real {
    AxisLimit(rect.x1 as real, rect.x2 as real, frameW as real, SquareShare(k.cols))
  }

  function LimitY(rect: Rect, frameH: int, k: Pattern): real {
    AxisLimit(rect.y1 as real, rect.y2 as real, frameH as real, SquareShare(k.rows))
  }

  /** The board, square by square: corners in the box, outer ring in the frame. */
  ghost predicate Fits(b: Board, k: Pattern, rect: Rect, frameW: int, frameH: int) {
    && b.square > 0.0
    && SquarePlaced(rect.x1 as real, rect.x2 as real, frameW as real, (k.cols - 1) as real, b.square, b.x)
    && SquarePlaced(rect.y1 as real, rect.y2 as real, frameH as real, (k.rows - 1) as real, b.square, b.y)
  }

  /** Percentage of the box that the board's inner corners span. */
  function BoardFill(b: Board, k: Pattern, rect: Rect): real
    requires rect.Width() > 0 && rect.Height() > 0
  {
    PositiveProduct(rect.Width(), rect.Height());
    Percent(SpanArea((k.cols - 1) as real, (k.rows - 1) as real, b.square), (rect.Width() * rect.Height()) as real)
  }

  lemma PositiveProduct(a: int, b: int)
    requires a > 0 && b > 0
    ensures a * b > 0
  {
  }

  /** The scene of a box, a frame and a pattern, its limits included. */
  function SceneFor(rect: Rect, frameW: int, frameH: int, k: Pattern): Scene {
    Scene(rect.x1 as real, rect.x2 as real, rect.y1 as real, rect.y2 as real, frameW as real, frameH as real,
          (rect.Width() * rect.Height()) as real, (k.cols - 1) as real, (k.rows - 1) as real,
          LimitX(rect, frameW, k), LimitY(rect, frameH, k), Aspect(k))
  }

  lemma SceneIsValid(rect: Rect, frameW: int, frameH: int, k: Pattern)
    requires IsBoardPattern(k) && rect.Width() > 0 && rect.Height() > 0
    ensures SceneFor(rect, frameW, frameH, k).Valid()
  {
    hide AxisLimit, Decides, SquareShare, Aspect;
    PositiveProduct(rect.Width(), rect.Height());
    var g := SceneFor(rect, frameW, frameH, k);
    forall square, p | square > 0.0
      ensures Decides(g.x1, g.x2, g.w, g.m, g.limitX, square, p)
    {
      LimitDecides(g.x1, g.x2, g.w, g.m, SquareShare(k.cols), square, p);
    }
    forall square, p | square > 0.0
      ensures Decides(g.y1, g.y2, g.h, g.n, g.limitY, square, p)
    {
      LimitDecides(g.y1, g.y2, g.h, g.n, SquareShare(k.rows), square, p);
    }
    PositiveFactor(g.aspect, g.n);
    LimitNonNegative(g.x1, g.x2, g.w, SquareShare(k.cols));
    LimitNonNegative(g.y1, g.y2, g.h, SquareShare(k.rows));
    PositiveAsReal(rect.Width() * rect.Height());
  }

  lemma LimitNonNegative(b1: real, b2: real, frame: real, c: real)
    requires c >= 0.0
    ensures AxisLimit(b1, b2, frame, c) >= 0.0
  {
  }

  lemma PositiveAsReal(n: int)
    requires n > 0
    ensures n as real > 0.0
  {
  }

  /** That scene speaks of exactly this box, frame and pattern. */
  lemma SceneOf(rect: Rect, frameW: int, frameH: int, k: Pattern) returns (g: Scene)
    requires IsBoardPattern(k) && rect.Width() > 0 && rect.Height() > 0
    ensures g.Valid() && g.aspect == Aspect(k) && g.area == (rect.Width() * rect.Height()) as real
    ensures g.limitX == LimitX(rect, frameW, k) && g.limitY == LimitY(rect, frameH, k)
    ensures forall b: Board :: g.Feasible(b) <==> Fits(b, k, rect, frameW, frameH)
    ensures forall b: Board :: g.Fill(b.square) == BoardFill(b, k, rect)
  {
    hide Scene.Valid, LimitX, LimitY, Aspect, SquarePlaced, SpanArea, Percent;
    SceneIsValid(rect, frameW, frameH, k);
    g := SceneFor(rect, frameW, frameH, k);
    PositiveProduct(rect.Width(), rect.Height());
  }

  lemma PositiveFactor(a: real, n: real)
    requires n > 0.0 && a * n > 0.0
    ensures a > 0.0
  {
    CancelAtMost(a, 0.0, n);
  }

  datatype FitError = DivisionByZero

  /** max_fill_pct; dividing by a zero aspect raises. */
  function MaxFillPct(rect: Rect, frameW: int, frameH: int, k: Pattern): Result<real, FitError> {
    if rect.Width() <= 0 || rect.Height() <= 0 then Success(0.0)
    else
      PositiveProduct(rect.Width(), rect.Height());
      var span := BindingSpan(LimitX(rect, frameW, k), LimitY(rect, frameH, k), Aspect(k));
      if Aspect(k) == 0.0 then Failure(DivisionByZero)
      else Success(Percent(AreaOfSpan(span, Aspect(k)), (rect.Width() * rect.Height()) as real))
  }

  /** It raises exactly for a one-column pattern over a nonempty box. */
  lemma MaxFillRaises(rect: Rect, frameW: int, frameH: int, k: Pattern)
    ensures MaxFillPct(rect, frameW, frameH, k).Failure? <==>
              k.cols == 1 && rect.Width() > 0 && rect.Height() > 0
  {
  }

  /** For a real board max_fill_pct is the fill of the best span. */
  lemma MaxFillOfScene(g: Scene, rect: Rect, frameW: int, frameH: int, k: Pattern)
    requires rect.Width() > 0 && rect.Height() > 0
    requires g.Valid() && g.aspect == Aspect(k) && g.area == (rect.Width() * rect.Height()) as real
    requires g.limitX == LimitX(rect, frameW, k) && g.limitY == LimitY(rect, frameH, k)
    ensures MaxFillPct(rect, frameW, frameH, k) == Success(g.FillOfSpan(g.BestSpan()))
  {
  }

  /** max_fill_pct is exact for boards held upright: it is the largest fill over all
      that fit, and it is not positive only when none fits at all. Boards turned by a
      quarter can cover more: see `HeldFills.MaxFillBoundsExactly`. */
  lemma MaxFillExact(rect: Rect, frameW: int, frameH: int, k: Pattern)
    requires IsBoardPattern(k) && rect.Width() > 0 && rect.Height() > 0
    ensures var r := MaxFillPct(rect, frameW, frameH, k);
            && r.Success?
            && (forall b: Board :: Fits(b, k, rect, frameW, frameH) ==> 0.0 < BoardFill(b, k, rect) <= r.value)
            && (r.value > 0.0 ==>
                  exists b: Board :: Fits(b, k, rect, frameW, frameH) && BoardFill(b, k, rect) == r.value)
            && (r.value <= 0.0 <==> forall b: Board :: !Fits(b, k, rect, frameW, frameH))
  {
    var g := SceneOf(rect, frameW, frameH, k);
    MaxFillOfScene(g, rect, frameW, frameH, k);
    var most := g.FillOfSpan(g.BestSpan());
    forall b: Board | Fits(b, k, rect, frameW, frameH)
      ensures 0.0 < BoardFill(b, k, rect) <= most
    {
      FillAtMostBest(g, b);
      FeasibleFillsSomething(g, b);
    }
    if most > 0.0 {
      var b := BestIsAttained(g);
      assert Fits(b, k, rect, frameW, frameH) && BoardFill(b, k, rect) == most;
    }
  }

  lemma FeasibleFillsSomething(g: Scene, b: Board)
    requires g.Valid() && g.Feasible(b)
    ensures g.Fill(b.square) > 0.0
  {
    SpanPositive(g.m, b.square);
    SpanPositive(g.n, b.square);
    SpanPositive(g.m * b.square, g.n * b.square);
    PositiveQuotient(100.0 * SpanArea(g.m, g.n, b.square), g.area);
  }

  lemma PositiveQuotient(a: real, d: real)
    requires a > 0.0 && d > 0.0
    ensures a / d > 0.0
  {
    CancelAtMost(a / d, 0.0, d);
  }

  // ----- the quadrilateral of a view -----

  function Abs(x: real): real { if x < 0.0 then -x else x }

  /** Signed shoelace sum of four points. */
  function Shoelace(a: Point, b: Point, c: Point, d: Point): real {
    (a.x * b.y + b.x * c.y + c.x * d.y + d.x * a.y) - (a.y * b.x + b.y * c.x + c.y * d.x + d.y * a.x)
  }

  function QuadArea4(a: Point, b: Point, c: Point, d: Point): real {
    0.5 * Abs(Shoelace(a, b, c, d))
  }

  /** quad_area: the four outer corners of the detected grid. */
  function QuadArea(corners: seq<Point>, k: Pattern): real
    requires k.cols >= 1 && k.rows >= 1 && |corners| == k.cols * k.rows
  {
    CornerIndices(k);
    QuadArea4(corners[0], corners[k.cols - 1], corners[k.cols * k.rows - 1], corners[k.cols * (k.rows - 1)])
  }

  lemma CornerIndices(k: Pattern)
    requires k.cols >= 1 && k.rows >= 1
    ensures 0 <= k.cols - 1 < k.cols * k.rows && 0 <= k.cols * (k.rows - 1) < k.cols * k.rows
  {
    assert k.cols * k.rows == k.cols * (k.rows - 1) + k.cols;
  }

  /** The shoelace sum is the cross product of the diagonals. */
  lemma ShoelaceIsDiagonals(a: Point, b: Point, c: Point, d: Point)
    ensures Shoelace(a, b, c, d) == (c.x - a.x) * (d.y - b.y) - (c.y - a.y) * (d.x - b.x)
  {
  }

  lemma ProductBound(u: real, v: real, m: real, n: real)
    requires -m <= u <= m && -n <= v <= n
    ensures -(m * n) <= u * v <= m * n
  {
    assert (m - u) * (n + v) >= 0.0 && (m + u) * (n - v) >= 0.0;
    assert (m - u) * (n - v) >= 0.0 && (m + u) * (n + v) >= 0.0;
    assert (m - u) * (n + v) + (m + u) * (n - v) == 2.0 * (m * n) - 2.0 * (u * v);
    assert (m - u) * (n - v) + (m + u) * (n + v) == 2.0 * (m * n) + 2.0 * (u * v);
  }

  /** For any four points of a box, convex or not, the area is at most the box's. */
  lemma QuadAreaWithinBox(a: Point, b: Point, c: Point, d: Point, rect: Rect)
    requires rect.Holds(a) && rect.Holds(b) && rect.Holds(c) && rect.Holds(d)
    ensures 0.0 <= QuadArea4(a, b, c, d) <= rect.Width() as real * rect.Height() as real
  {
    var w, h := rect.Width() as real, rect.Height() as real;
    ShoelaceIsDiagonals(a, b, c, d);
    ProductBound(c.x - a.x, d.y - b.y, w, h);
    ProductBound(d.x - b.x, c.y - a.y, w, h);
  }

  /** Moving the board, starting at another corner or going round the other way
      does not change the area. */
  lemma QuadAreaInvariant(a: Point, b: Point, c: Point, d: Point, dx: real, dy: real)
    ensures QuadArea4(b, c, d, a) == QuadArea4(a, b, c, d)
    ensures QuadArea4(d, c, b, a) == QuadArea4(a, b, c, d)
    ensures QuadArea4(Point(a.x + dx, a.y + dy), Point(b.x + dx, b.y + dy),
                      Point(c.x + dx, c.y + dy), Point(d.x + dx, d.y + dy)) == QuadArea4(a, b, c, d)
  {
    ShoelaceIsDiagonals(a, b, c, d);
    ShoelaceIsDiagonals(b, c, d, a);
    ShoelaceIsDiagonals(d, c, b, a);
    ShoelaceIsDiagonals(Point(a.x + dx, a.y + dy), Point(b.x + dx, b.y + dy),
                        Point(c.x + dx, c.y + dy), Point(d.x + dx, d.y + dy));
  }

  predicate Contains(rect: Rect, corners: seq<Point>) {
    forall p :: p in corners ==> rect.Holds(p)
  }

  function BoxArea(rect: Rect): int {
    var area := rect.Width() * rect.Height();
    if area < 0 then -area else area
  }

  /** The fill of a view, as the guided loop computes it. */
  function ViewFill(corners: seq<Point>, k: Pattern, rect: Rect): real
    requires k.cols >= 1 && k.rows >= 1 && |corners| == k.cols * k.rows
  {
    Percent(QuadArea(corners, k), AtLeastOne(BoxArea(rect)) as real)
  }

  /** The fill of a view is the area of its outer quadrilateral, in percent of the box's
      area, or of one pixel where that is empty. */
  lemma ViewFillMeans(corners: seq<Point>, k: Pattern, rect: Rect)
    requires k.cols >= 1 && k.rows >= 1 && |corners| == k.cols * k.rows
    ensures var w, h := rect.x2 - rect.x1, rect.y2 - rect.y1;
            var area := if w * h >= 1 then w * h else if w * h <= -1 then -(w * h) else 1;
            ViewFill(corners, k, rect) * area as real == 100.0 * QuadArea(corners, k)
  {
    hide QuadArea;
    var whole := AtLeastOne(BoxArea(rect)) as real;
    QuotientTimes(100.0 * QuadArea(corners, k), whole);
  }

  lemma QuotientTimes(a: real, d: real)
    requires d > 0.0
    ensures a / d * d == a
  {
  }

  /** A view inside its box fills between 0 and 100 percent of it. */
  lemma ViewFillIsPercentage(corners: seq<Point>, k: Pattern, rect: Rect)
    requires k.cols >= 1 && k.rows >= 1 && |corners| == k.cols * k.rows && Contains(rect, corners)
    ensures 0.0 <= ViewFill(corners, k, rect) <= 100.0
  {
    CornerIndices(k);
    var a, b := corners[0], corners[k.cols - 1];
    var c, d := corners[k.cols * k.rows - 1], corners[k.cols * (k.rows - 1)];
    assert a in corners && b in corners && c in corners && d in corners;
    QuadAreaWithinBox(a, b, c, d, rect);
    assert rect.Width() >= 0 && rect.Height() >= 0;
    assert BoxArea(rect) == rect.Width() * rect.Height();
    assert rect.Width() as real * rect.Height() as real == (rect.Width() * rect.Height()) as real;
    PercentBound(QuadArea(corners, k), AtLeastOne(BoxArea(rect)) as real);
  }

  lemma PercentBound(area: real, whole: real)
    requires 0.0 <= area <= whole && whole > 0.0
    ensures 0.0 <= Percent(area, whole) <= 100.0
  {
    QuotientMonotone(0.0, 100.0 * area, whole);
    QuotientMonotone(100.0 * area, 100.0 * whole, whole);
    DivideBack(100.0, whole);
  }

  /** Inner corner number i of an upright board, row by row. */
  function BoardCorner(b: Board, k: Pattern, i: int): Point
    requires k.cols >= 1
  {
    Point(b.x + (i % k.cols) as real * b.square, b.y + (i / k.cols) as real * b.square)
  }

  /** The view a detector would report of the board. */
  function BoardCorners(b: Board, k: Pattern): seq<Point>
    requires IsBoardPattern(k)
  {
    PositiveProduct(k.cols, k.rows);
    seq(k.cols * k.rows, i requires 0 <= i < k.cols * k.rows => BoardCorner(b, k, i))
  }

  /** A feasible board, seen as a detected view, passes `contains`. */
  lemma BoardIsContained(b: Board, k: Pattern, rect: Rect, frameW: int, frameH: int)
    requires IsBoardPattern(k) && Fits(b, k, rect, frameW, frameH)
    ensures Contains(rect, BoardCorners(b, k))
  {
    hide Fits, Rect.Holds, BoardCorner;
    var corners := BoardCorners(b, k);
    forall p | p in corners ensures rect.Holds(p) {
      var i :| 0 <= i < |corners| && corners[i] == p;
      CornerHeld(b, k, rect, frameW, frameH, i);
    }
  }

  lemma CornerHeld(b: Board, k: Pattern, rect: Rect, frameW: int, frameH: int, i: int)
    requires IsBoardPattern(k) && Fits(b, k, rect, frameW, frameH) && 0 <= i < k.cols * k.rows
    ensures rect.Holds(BoardCorner(b, k, i))
  {
    hide BoardCorner;
    CornerInsideSpan(b, k, i);
  }

  lemma CornerInsideSpan(b: Board, k: Pattern, i: int)
    requires IsBoardPattern(k) && b.square > 0.0 && 0 <= i < k.cols * k.rows
    ensures b.x <= BoardCorner(b, k, i).x <= b.x + (k.cols - 1) as real * b.square
    ensures b.y <= BoardCorner(b, k, i).y <= b.y + (k.rows - 1) as real * b.square
  {
    GridPosition(i, k.cols, k.rows);
    ProductMonotone((i % k.cols) as real, (k.cols - 1) as real, b.square, b.square);
    ProductMonotone((i / k.cols) as real, (k.rows - 1) as real, b.square, b.square);
  }

  lemma GridPosition(i: int, cols: int, rows: int)
    requires cols >= 1 && rows >= 1 && 0 <= i < cols * rows
    ensures 0 <= i % cols <= cols - 1 && 0 <= i / cols <= rows - 1
  {
    var q := i / cols;
    assert cols * q <= i;
    CancelLess(cols, q, rows);
  }

  lemma CancelLess(d: int, a: int, b: int)
    requires d > 0
    ensures a < b <==> d * a < d * b
  {
  }

  lemma DivModOf(d: int, q: int, r: int)
    requires d > 0 && 0 <= r < d
    ensures (d * q + r) / d == q && (d * q + r) % d == r
  {
    var i := d * q + r;
    var e := q - i / d;
    assert d * (i / d) + i % d == i;
    assert d * q == d * (i / d) + d * e;
    assert -d < d * e < d;
    CancelLess(d, -1, e);
    CancelLess(d, e, 1);
  }

  lemma OuterCorners(b: Board, k: Pattern)
    requires IsBoardPattern(k)
    ensures var w, h := (k.cols - 1) as real * b.square, (k.rows - 1) as real * b.square;
            && BoardCorner(b, k, 0) == Point(b.x, b.y)
            && BoardCorner(b, k, k.cols - 1) == Point(b.x + w, b.y)
            && BoardCorner(b, k, k.cols * k.rows - 1) == Point(b.x + w, b.y + h)
            && BoardCorner(b, k, k.cols * (k.rows - 1)) == Point(b.x, b.y + h)
  {
    DivModOf(k.cols, 0, 0);
    DivModOf(k.cols, 0, k.cols - 1);
    DivModOf(k.cols, k.rows - 1, k.cols - 1);
    DivModOf(k.cols, k.rows - 1, 0);
    assert k.cols * k.rows - 1 == k.cols * (k.rows - 1) + (k.cols - 1);
  }

  lemma RectangleArea(x: real, y: real, w: real, h: real)
    requires w >= 0.0 && h >= 0.0
    ensures QuadArea4(Point(x, y), Point(x + w, y), Point(x + w, y + h), Point(x, y + h)) == w * h
  {
    ShoelaceIsDiagonals(Point(x, y), Point(x + w, y), Point(x + w, y + h), Point(x, y + h));
    assert w * h >= 0.0;
  }

  lemma RectangleQuadArea(corners: seq<Point>, k: Pattern, x: real, y: real, w: real, h: real)
    requires k.cols >= 1 && k.rows >= 1 && |corners| == k.cols * k.rows && w >= 0.0 && h >= 0.0
    requires 0 <= k.cols - 1 < k.cols * k.rows && 0 <= k.cols * (k.rows - 1) < k.cols * k.rows
    requires corners[0] == Point(x, y) && corners[k.cols - 1] == Point(x + w, y)
    requires corners[k.cols * k.rows - 1] == Point(x + w, y + h)
    requires corners[k.cols * (k.rows - 1)] == Point(x, y + h)
    ensures QuadArea(corners, k) == w * h
  {
    RectangleArea(x, y, w, h);
  }

  lemma BoardOutline(b: Board, k: Pattern, w: real, h: real)
    requires IsBoardPattern(k) && w == (k.cols - 1) as real * b.square && h == (k.rows - 1) as real * b.square
    requires w >= 0.0 && h >= 0.0
    ensures QuadArea(BoardCorners(b, k), k) == w * h
  {
    CornerIndices(k);
    OuterCorners(b, k);
    RectangleQuadArea(BoardCorners(b, k), k, b.x, b.y, w, h);
  }

  /** Any view of known area fills its percentage of the box. */
  lemma ViewFillOfArea(corners: seq<Point>, k: Pattern, rect: Rect, area: real)
    requires k.cols >= 1 && k.rows >= 1 && |corners| == k.cols * k.rows && QuadArea(corners, k) == area
    requires rect.Width() > 0 && rect.Height() > 0
    ensures rect.Width() * rect.Height() > 0
    ensures ViewFill(corners, k, rect) == Percent(area, (rect.Width() * rect.Height()) as real)
  {
    PositiveArea(rect);
  }

  lemma PositiveArea(rect: Rect)
    requires rect.Width() > 0 && rect.Height() > 0
    ensures AtLeastOne(BoxArea(rect)) == rect.Width() * rect.Height() > 0
  {
    PositiveProduct(rect.Width(), rect.Height());
  }

  /** A rectangular view, w across and h down, of a board with these spans. */
  lemma RectangleFill(corners: seq<Point>, k: Pattern, rect: Rect, w: real, h: real, b: Board)
    requires k.cols >= 1 && k.rows >= 1 && |corners| == k.cols * k.rows && QuadArea(corners, k) == w * h
    requires w == (k.cols - 1) as real * b.square && h == (k.rows - 1) as real * b.square
    requires rect.Width() > 0 && rect.Height() > 0
    ensures ViewFill(corners, k, rect) == BoardFill(b, k, rect)
  {
    PositiveArea(rect);
    SpanAreaOf((k.cols - 1) as real, (k.rows - 1) as real, b.square, w, h);
    ViewFillOfArea(corners, k, rect, w * h);
  }

  lemma SpanAreaOf(m: real, n: real, square: real, w: real, h: real)
    requires w == m * square && h == n * square
    ensures SpanArea(m, n, square) == w * h
  {
  }

  /** The fill the guided loop measures on an upright board is the board's. */
  lemma BoardAsView(b: Board, k: Pattern, rect: Rect)
    requires IsBoardPattern(k) && b.square > 0.0 && rect.Width() > 0 && rect.Height() > 0
    ensures ViewFill(BoardCorners(b, k), k, rect) == BoardFill(b, k, rect)
  {
    var w, h := (k.cols - 1) as real * b.square, (k.rows - 1) as real * b.square;
    SpanPositive((k.cols - 1) as real, b.square);
    SpanPositive((k.rows - 1) as real, b.square);
    BoardOutline(b, k, w, h);
    RectangleFill(BoardCorners(b, k), k, rect, w, h, b);
  }
}
