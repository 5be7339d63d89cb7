// Boards held flat to the camera at any angle: which of them the threshold region of a
// target holds, and what the geometry of upright boards says of turned ones
// (tools/calibrate_camera.py: max_fill_pct, TargetQueue._load, guided_capture).
module HeldBoards {
  import opened BoardFit
  import opened TargetQueues
  import TB = ThresholdBox

  /** The first inner corner and the step from one corner to the next along a row; the
      step from row to row is that one turned by a quarter. */
  datatype Held = Held(x: real, y: real, ux: real, uy: real)

  // ----- along one axis -----

  function Times(a: real, b: real): real { a * b }

  function AbsReal(x: real): real { if x < 0.0 then -x else x }

  /** Where a board's corners begin on an axis along which a step on the board adds
      `a` for a column and `b` for a row, from `p` on, `m` columns and `n` rows long. */
  function Low(p: real, a: real, b: real, m: real, n: real): real {
    p + MinReal(0.0, Times(m, a)) + MinReal(0.0, Times(n, b))
  }

  /** How far its corners reach, and how far past them the outer squares do. */
  function SpanOf(a: real, b: real, m: real, n: real): real {
    Times(m, AbsReal(a)) + Times(n, AbsReal(b))
  }

  function Overhang(a: real, b: real): real {
    AbsReal(a) + AbsReal(b)
  }

  /** The four corners of a grid that reaches `am` along its rows and `bn` along its
      columns, each moved out by one step `a` and one step `b`. */
  predicate CornersIn(p: real, a: real, b: real, am: real, bn: real, lo: real, hi: real) {
    && lo <= p - a - b <= hi
    && lo <= p + am + a - b <= hi
    && lo <= p + am + a + bn + b <= hi
    && lo <= p - a + bn + b <= hi
  }

  lemma AbsOfZero()
    ensures AbsReal(0.0) == 0.0
  {
  }

  lemma SignOfProduct(m: real, a: real)
    requires m > 0.0
    ensures Times(m, AbsReal(a)) == AbsReal(Times(m, a))
    ensures (Times(m, a) >= 0.0 ==> a >= 0.0) && (Times(m, a) <= 0.0 ==> a <= 0.0)
  {
  }

  lemma Ends(a: real, am: real)
    requires (am >= 0.0 ==> a >= 0.0) && (am <= 0.0 ==> a <= 0.0)
    ensures MinReal(-a, am + a) == MinReal(0.0, am) - AbsReal(a)
    ensures MaxReal(-a, am + a) == MinReal(0.0, am) + AbsReal(am) + AbsReal(a)
  {
  }

  predicate AllSums(p: real, x: real, x': real, y: real, y': real, lo: real, hi: real) {
    lo <= p + x + y <= hi && lo <= p + x' + y <= hi && lo <= p + x' + y' <= hi && lo <= p + x + y' <= hi
  }

  lemma FourSums(p: real, x: real, x': real, y: real, y': real, lo: real, hi: real)
    ensures AllSums(p, x, x', y, y', lo, hi) <==>
              lo <= p + MinReal(x, x') + MinReal(y, y') && p + MaxReal(x, x') + MaxReal(y, y') <= hi
  {
  }

  lemma CornersAreSums(p: real, a: real, b: real, am: real, bn: real, lo: real, hi: real)
    ensures CornersIn(p, a, b, am, bn, lo, hi) <==> AllSums(p, -a, am + a, -b, bn + b, lo, hi)
  {
  }

  /** Corners lie between two limits exactly when the lowest and the highest do. */
  lemma CornersBySum(p: real, a: real, b: real, am: real, bn: real, lo: real, hi: real)
    requires (am >= 0.0 ==> a >= 0.0) && (am <= 0.0 ==> a <= 0.0)
    requires (bn >= 0.0 ==> b >= 0.0) && (bn <= 0.0 ==> b <= 0.0)
    ensures CornersIn(p, a, b, am, bn, lo, hi) <==>
              && lo <= p + MinReal(0.0, am) + MinReal(0.0, bn) - Overhang(a, b)
              && p + MinReal(0.0, am) + MinReal(0.0, bn) + AbsReal(am) + AbsReal(bn) + Overhang(a, b) <= hi
  {
    hide *;
    CornersAreSums(p, a, b, am, bn, lo, hi);
    Ends(a, am);
    Ends(b, bn);
    SumsByEnds(p, -a, am + a, -b, bn + b, lo, hi, MinReal(0.0, am) - AbsReal(a), MinReal(0.0, bn) - AbsReal(b),
               MinReal(0.0, am) + AbsReal(am) + AbsReal(a), MinReal(0.0, bn) + AbsReal(bn) + AbsReal(b));
    OverhangIsSum(a, b);
  }

  lemma OverhangIsSum(a: real, b: real)
    ensures Overhang(a, b) == AbsReal(a) + AbsReal(b)
  {
  }

  lemma SumsByEnds(p: real, x: real, x': real, y: real, y': real, lo: real, hi: real,
                   lowX: real, lowY: real, highX: real, highY: real)
    requires MinReal(x, x') == lowX && MaxReal(x, x') == highX && MinReal(y, y') == lowY && MaxReal(y, y') == highY
    ensures AllSums(p, x, x', y, y', lo, hi) <==> lo <= p + lowX + lowY && p + highX + highY <= hi
  {
    hide *;
    FourSums(p, x, x', y, y', lo, hi);
  }

  lemma CornersByExtent(p: real, a: real, b: real, m: real, n: real, lo: real, hi: real)
    requires m > 0.0 && n > 0.0
    ensures CornersIn(p, 0.0, 0.0, Times(m, a), Times(n, b), lo, hi) <==>
              lo <= Low(p, a, b, m, n) && Low(p, a, b, m, n) + SpanOf(a, b, m, n) <= hi
    ensures CornersIn(p, a, b, Times(m, a), Times(n, b), lo, hi) <==>
              && lo <= Low(p, a, b, m, n) - Overhang(a, b)
              && Low(p, a, b, m, n) + SpanOf(a, b, m, n) + Overhang(a, b) <= hi
  {
    hide CornersIn, MinReal, AbsReal, Times;
    AbsOfZero();
    SignOfProduct(m, a);
    SignOfProduct(n, b);
    CornersBySum(p, a, b, Times(m, a), Times(n, b), lo, hi);
    CornersBySum(p, 0.0, 0.0, Times(m, a), Times(n, b), lo, hi);
  }

  // ----- a held board in box, frame and region -----

  function Across(k: Pattern): real { (k.cols - 1) as real }

  function Down(k: Pattern): real { (k.rows - 1) as real }

  /** The inner corners in a rectangle. */
  predicate InnerIn(t: Held, k: Pattern, rect: Rect) {
    var m, n := Across(k), Down(k);
    && CornersIn(t.x, 0.0, 0.0, Times(m, t.ux), Times(n, -t.uy), rect.x1 as real, rect.x2 as real)
    && CornersIn(t.y, 0.0, 0.0, Times(m, t.uy), Times(n, t.ux), rect.y1 as real, rect.y2 as real)
  }

  /** The whole board, one square past them on every side, in a rectangle. */
  predicate OuterIn(t: Held, k: Pattern, rect: Rect) {
    var m, n := Across(k), Down(k);
    && CornersIn(t.x, t.ux, -t.uy, Times(m, t.ux), Times(n, -t.uy), rect.x1 as real, rect.x2 as real)
    && CornersIn(t.y, t.uy, t.ux, Times(m, t.uy), Times(n, t.ux), rect.y1 as real, rect.y2 as real)
  }

  /** Inner corners in the box, the whole board in the frame. */
  predicate FitsHeld(t: Held, k: Pattern, rect: Rect, width: int, height: int) {
    (t.ux != 0.0 || t.uy != 0.0) && InnerIn(t, k, rect) && OuterIn(t, k, Rect(0, 0, width, height))
  }

  /** One axis of that, by extents. */
  predicate AxisFits(b1: int, b2: int, frame: int, low: real, span: real, over: real) {
    b1 as real <= low && low + span <= b2 as real && 0.0 <= low - over && low + span + over <= frame as real
  }

  function LowX(t: Held, k: Pattern): real { Low(t.x, t.ux, -t.uy, Across(k), Down(k)) }

  function LowY(t: Held, k: Pattern): real { Low(t.y, t.uy, t.ux, Across(k), Down(k)) }

  function SpanX(t: Held, k: Pattern): real { SpanOf(t.ux, -t.uy, Across(k), Down(k)) }

  function SpanY(t: Held, k: Pattern): real { SpanOf(t.uy, t.ux, Across(k), Down(k)) }

  function Over(t: Held): real { Overhang(t.ux, t.uy) }

  lemma Sides(k: Pattern)
    requires IsBoardPattern(k)
    ensures Across(k) >= 1.0 && Down(k) >= 1.0
  {
  }

  lemma OverhangIsOver(t: Held)
    ensures Overhang(t.uy, t.ux) == Overhang(t.ux, -t.uy) == Over(t)
  {
  }

  lemma InnerByExtents(t: Held, k: Pattern, rect: Rect)
    requires IsBoardPattern(k)
    ensures InnerIn(t, k, rect) <==>
              && rect.x1 as real <= LowX(t, k) && LowX(t, k) + SpanX(t, k) <= rect.x2 as real
              && rect.y1 as real <= LowY(t, k) && LowY(t, k) + SpanY(t, k) <= rect.y2 as real
  {
    hide Low, SpanOf, CornersIn, Across, Down, Overhang, Times;
    Sides(k);
    CornersByExtent(t.x, t.ux, -t.uy, Across(k), Down(k), rect.x1 as real, rect.x2 as real);
    CornersByExtent(t.y, t.uy, t.ux, Across(k), Down(k), rect.y1 as real, rect.y2 as real);
  }

  lemma OuterByExtents(t: Held, k: Pattern, rect: Rect)
    requires IsBoardPattern(k)
    ensures OuterIn(t, k, rect) <==>
              && rect.x1 as real <= LowX(t, k) - Over(t) && LowX(t, k) + SpanX(t, k) + Over(t) <= rect.x2 as real
              && rect.y1 as real <= LowY(t, k) - Over(t) && LowY(t, k) + SpanY(t, k) + Over(t) <= rect.y2 as real
  {
    hide Low, SpanOf, CornersIn, Across, Down, Overhang, Times;
    Sides(k);
    CornersByExtent(t.x, t.ux, -t.uy, Across(k), Down(k), rect.x1 as real, rect.x2 as real);
    CornersByExtent(t.y, t.uy, t.ux, Across(k), Down(k), rect.y1 as real, rect.y2 as real);
    OverhangIsOver(t);
  }

  lemma HeldByExtents(t: Held, k: Pattern, rect: Rect, width: int, height: int)
    requires IsBoardPattern(k)
    ensures FitsHeld(t, k, rect, width, height) <==>
              && (t.ux != 0.0 || t.uy != 0.0)
              && AxisFits(rect.x1, rect.x2, width, LowX(t, k), SpanX(t, k), Over(t))
              && AxisFits(rect.y1, rect.y2, height, LowY(t, k), SpanY(t, k), Over(t))
  {
    hide LowX, LowY, SpanX, SpanY, Over, InnerIn, OuterIn;
    InnerByExtents(t, k, rect);
    OuterByExtents(t, k, Rect(0, 0, width, height));
  }

  // ----- how far a board can hang over -----

  /** What an axis leaves to the inner corners of a board that hangs `q` over. */
  function Room(b1: int, b2: int, frame: int, q: int): int {
    TB.Min(TB.Min(b2 - b1, frame - b1 - q), TB.Min(b2 - q, frame - 2 * q))
  }

  function RoomX(rect: Rect, width: int, q: int): int { Room(rect.x1, rect.x2, width, q) }

  function RoomY(rect: Rect, height: int, q: int): int { Room(rect.y1, rect.y2, height, q) }

  function Shorter(k: Pattern): int { TB.Min(k.cols, k.rows) - 1 }

  /** At some angle a board fits that hangs over by more than `q`. */
  predicate HangsOver(k: Pattern, roomX: int, roomY: int, q: int) {
    && Shorter(k) * q < roomX && Shorter(k) * q < roomY
    && (k.cols + k.rows - 2) * q < roomX + roomY
  }

  function PadX(rect: Rect, k: Pattern): int { Pad(rect.Width(), k.cols) }

  function PadY(rect: Rect, k: Pattern): int { Pad(rect.Height(), k.rows) }

  /** The threshold region of a box, with the sides that are not the frame's moved in
      by `g`. */
  function Shrunk(rect: Rect, width: int, height: int, k: Pattern, g: int): Rect {
    var padX, padY := PadX(rect, k), PadY(rect, k);
    Rect(if padX < rect.x1 then rect.x1 - padX + g else 0,
         if padY < rect.y1 then rect.y1 - padY + g else 0,
         if rect.x2 + padX < width then rect.x2 + padX - g else width,
         if rect.y2 + padY < height then rect.y2 + padY - g else height)
  }

  lemma ShrunkByNothing(rect: Rect, width: int, height: int, k: Pattern)
    ensures var region := ThresholdRegion(rect, width, height, k);
            Shrunk(rect, width, height, k, 0)
              == Rect(region.x, region.y, region.x + region.w, region.y + region.h)
  {
  }

  /** Whether a board can come closer than `g` to a side of the region, or leave it: on
      an axis where the region ends before the frame does, one fits that hangs over by
      more than the padding less `g`. */
  predicate Escapes(rect: Rect, width: int, height: int, k: Pattern, g: int) {
    var padX, padY := PadX(rect, k), PadY(rect, k);
    || ((padX < rect.x1 || rect.x2 + padX < width) && Hangs(rect, width, height, k, padX - g))
    || ((padY < rect.y1 || rect.y2 + padY < height) && Hangs(rect, width, height, k, padY - g))
  }

  predicate Hangs(rect: Rect, width: int, height: int, k: Pattern, q: int) {
    HangsOver(k, RoomX(rect, width, q), RoomY(rect, height, q), q)
  }

  lemma RoomShrinks(b1: int, b2: int, frame: int, q: int, low: real, span: real, over: real)
    requires AxisFits(b1, b2, frame, low, span, over) && over > q as real
    ensures span <= Room(b1, b2, frame, q) as real
  {
  }

  /** At any angle the spans of a board are the shorter side of the pattern at least,
      and both sides together, in units of its overhang. */
  lemma SpansOfOverhang(a: real, b: real, m: real, n: real, small: real)
    requires 0.0 < small <= m && small <= n
    ensures SpanOf(a, b, m, n) >= small * Overhang(a, b)
    ensures SpanOf(a, b, m, n) + SpanOf(b, a, m, n) == (m + n) * Overhang(a, b)
  {
    SumsOfSides(AbsReal(a), AbsReal(b), m, n, small);
  }

  lemma SumsOfSides(s: real, u: real, m: real, n: real, small: real)
    requires s >= 0.0 && u >= 0.0 && 0.0 < small <= m && small <= n
    ensures Times(m, s) + Times(n, u) >= small * (s + u)
    ensures Times(m, s) + Times(n, u) + Times(m, u) + Times(n, s) == (m + n) * (s + u)
  {
    ProductMonotone(small, m, s, s);
    ProductMonotone(small, n, u, u);
  }

  lemma ScaleInt(c: int, q: int, over: real)
    requires c > 0 && over > q as real
    ensures c as real * over > (c * q) as real
  {
    assert c as real * over - c as real * q as real == c as real * (over - q as real);
    SpanPositive(c as real, over - q as real);
    ProductAsReal(c, q);
  }

  lemma OverMeansHangsOver(t: Held, k: Pattern, rect: Rect, width: int, height: int, q: int)
    requires IsBoardPattern(k) && Over(t) > q as real
    requires AxisFits(rect.x1, rect.x2, width, LowX(t, k), SpanX(t, k), Over(t))
    requires AxisFits(rect.y1, rect.y2, height, LowY(t, k), SpanY(t, k), Over(t))
    ensures Hangs(rect, width, height, k, q)
  {
    hide SpanX, SpanY, Over, LowX, LowY, Room, AxisFits;
    SpansTogether(t, k);
    ScaleInt(Shorter(k), q, Over(t));
    ScaleInt(k.cols + k.rows - 2, q, Over(t));
    RoomShrinks(rect.x1, rect.x2, width, q, LowX(t, k), SpanX(t, k), Over(t));
    RoomShrinks(rect.y1, rect.y2, height, q, LowY(t, k), SpanY(t, k), Over(t));
  }

  lemma SpansTogether(t: Held, k: Pattern)
    requires IsBoardPattern(k)
    ensures SpanX(t, k) >= Shorter(k) as real * Over(t) && SpanY(t, k) >= Shorter(k) as real * Over(t)
    ensures SpanX(t, k) + SpanY(t, k) == (k.cols + k.rows - 2) as real * Over(t)
  {
    hide SpanOf;
    SpansOfOverhang(t.ux, t.uy, Across(k), Down(k), Shorter(k) as real);
    SpansOfOverhang(t.uy, t.ux, Across(k), Down(k), Shorter(k) as real);
    SpanIgnoresSign(t.ux, t.uy, Across(k), Down(k));
    assert Overhang(t.uy, t.ux) == Over(t);
    assert Across(k) + Down(k) == (k.cols + k.rows - 2) as real;
  }

  lemma SpanIgnoresSign(a: real, b: real, m: real, n: real)
    ensures SpanOf(a, -b, m, n) == SpanOf(a, b, m, n)
  {
    assert AbsReal(-b) == AbsReal(b);
  }

  /** Leaving a side means hanging over by more than its padding. */
  lemma SideLeft(b1: int, b2: int, frame: int, pad: int, g: int, low: real, span: real, over: real)
    requires AxisFits(b1, b2, frame, low, span, over)
    requires || (if pad < b1 then b1 - pad + g else 0) as real > low - over
             || low + span + over > (if b2 + pad < frame then b2 + pad - g else frame) as real
    ensures over > (pad - g) as real && (pad < b1 || b2 + pad < frame)
  {
  }

  lemma EscapingHangs(t: Held, k: Pattern, rect: Rect, width: int, height: int, g: int)
    requires IsBoardPattern(k) && FitsHeld(t, k, rect, width, height)
    requires !OuterIn(t, k, Shrunk(rect, width, height, k, g))
    ensures Escapes(rect, width, height, k, g)
  {
    hide FitsHeld, OuterIn, LowX, LowY, SpanX, SpanY, Over, Hangs, PadX, PadY;
    HeldByExtents(t, k, rect, width, height);
    OuterByExtents(t, k, Shrunk(rect, width, height, k, g));
    var padX, padY, s := PadX(rect, k), PadY(rect, k), Shrunk(rect, width, height, k, g);
    if s.x1 as real > LowX(t, k) - Over(t) || LowX(t, k) + SpanX(t, k) + Over(t) > s.x2 as real {
      SideLeft(rect.x1, rect.x2, width, padX, g, LowX(t, k), SpanX(t, k), Over(t));
      OverMeansHangsOver(t, k, rect, width, height, padX - g);
    } else {
      SideLeft(rect.y1, rect.y2, height, padY, g, LowY(t, k), SpanY(t, k), Over(t));
      OverMeansHangsOver(t, k, rect, width, height, padY - g);
    }
  }

  // ----- a board that does hang over -----

  /** Steps that share an overhang between two axes within both rooms. */
  lemma Shared(m: real, n: real, over: real, x: real, y: real) returns (a: real, b: real)
    requires 0.0 < n <= m && over > 0.0
    requires n * over <= x && n * over <= y && (m + n) * over <= x + y
    ensures a >= 0.0 && b >= 0.0 && a + b == over && m * a + n * b <= x && n * a + m * b <= y
  {
    if m == n {
      a, b := over, 0.0;
    } else if m * over <= y {
      a, b := 0.0, over;
    } else {
      var d := m - n;
      a := (m * over - y) / d;
      b := over - a;
      assert d * a == m * over - y;
      assert d * over == m * over - n * over;
      CancelAtMost(a, over, d);
      CancelAtMost(0.0, a, d);
      assert m * a + n * b == n * over + d * a;
      assert n * a + m * b == m * over - d * a;
    }
  }

  lemma SharedAny(m: real, n: real, small: real, over: real, x: real, y: real) returns (a: real, b: real)
    requires 0.0 < m && 0.0 < n && small == MinReal(m, n) && over > 0.0
    requires small * over <= x && small * over <= y && (m + n) * over <= x + y
    ensures a >= 0.0 && b >= 0.0 && a + b == over && m * a + n * b <= x && n * a + m * b <= y
  {
    if n <= m {
      a, b := Shared(m, n, over, x, y);
    } else {
      b, a := Shared(n, m, over, x, y);
    }
  }

  /** Room for a board that hangs over by a little more than `q`. */
  lemma RoomAllows(b1: int, b2: int, frame: int, q: int, span: real, e: real)
    requires span + 2.0 * e <= Room(b1, b2, frame, q) as real && e >= 0.0
    ensures SpanFits(b1 as real, b2 as real, frame as real, span, q as real + e)
  {
  }

  /** Sums of whole numbers leave room for a small rest. */
  lemma SmallRest(c: int, q: int, room: int, share: int, e: real)
    requires c >= 1 && q >= 0 && c * q < room && 0 <= share <= 4
    requires e > 0.0 && (c + share) as real * e <= 1.0
    ensures c as real * (q as real + e) <= room as real - share as real * e
  {
    ProductAsReal(c, q);
    assert c as real * (q as real + e) == c as real * q as real + c as real * e;
    assert (c + share) as real * e == c as real * e + share as real * e;
  }

  function Rest(sides: int): real
    requires sides >= 2
  {
    1.0 / (sides + 4) as real
  }

  lemma RestOf(c: int, sides: int)
    requires sides >= 2 && 1 <= c <= sides + 4
    ensures Rest(sides) > 0.0 && c as real * Rest(sides) <= 1.0
  {
    var d := (sides + 4) as real;
    CancelAtMost(Rest(sides), 0.0, d);
    ProductMonotone(c as real, d, Rest(sides), Rest(sides));
  }

  lemma SidesOf(k: Pattern)
    requires IsBoardPattern(k)
    ensures Across(k) > 0.0 && Down(k) > 0.0 && 1 <= Shorter(k) && Shorter(k) + 2 <= k.cols + k.rows - 2 + 4
    ensures Across(k) + Down(k) == (k.cols + k.rows - 2) as real
    ensures Shorter(k) as real == MinReal(Across(k), Down(k))
  {
  }

  lemma StepsThatHang(k: Pattern, roomX: int, roomY: int, q: int) returns (a: real, b: real, e: real)
    requires IsBoardPattern(k) && q >= 0 && HangsOver(k, roomX, roomY, q)
    ensures a >= 0.0 && b >= 0.0 && e > 0.0 && a + b == q as real + e
    ensures Across(k) * a + Down(k) * b + 2.0 * e <= roomX as real
    ensures Across(k) * b + Down(k) * a + 2.0 * e <= roomY as real
  {
    hide Across, Down, Shorter, Rest, MinReal;
    var small, sides := Shorter(k), k.cols + k.rows - 2;
    SidesOf(k);
    e := Rest(sides);
    RestOf(small + 2, sides);
    RestOf(sides + 4, sides);
    SmallRest(small, q, roomX, 2, e);
    SmallRest(small, q, roomY, 2, e);
    SmallRest(sides, q, roomX + roomY, 4, e);
    a, b := StepsFor(Across(k), Down(k), small as real, sides as real, q as real + e,
                     roomX as real - 2.0 * e, roomY as real - 2.0 * e);
  }

  lemma StepsFor(m: real, n: real, small: real, sides: real, over: real, x: real, y: real) returns (a: real, b: real)
    requires 0.0 < m && 0.0 < n && small == MinReal(m, n) && over > 0.0 && sides == m + n
    requires small * over <= x && small * over <= y && sides * over <= x + y
    ensures a >= 0.0 && b >= 0.0 && a + b == over && m * a + n * b <= x && m * b + n * a <= y
  {
    a, b := SharedAny(m, n, small, over, x, y);
  }

  /** A board with these steps begins where it is wanted. */
  function HeldAt(lowX: real, lowY: real, a: real, b: real, k: Pattern): Held {
    Held(lowX + Times(Down(k), b), lowY, a, b)
  }

  lemma HeldAtMeans(lowX: real, lowY: real, a: real, b: real, k: Pattern)
    requires IsBoardPattern(k) && a >= 0.0 && b >= 0.0
    ensures var t := HeldAt(lowX, lowY, a, b, k);
            && LowX(t, k) == lowX && LowY(t, k) == lowY && Over(t) == a + b
            && SpanX(t, k) == Across(k) * a + Down(k) * b && SpanY(t, k) == Across(k) * b + Down(k) * a
  {
    Sides(k);
    hide Across, Down;
    ProductMonotone(0.0, Across(k), 0.0, a);
    ProductMonotone(0.0, Across(k), 0.0, b);
    ProductMonotone(0.0, Down(k), 0.0, a);
    ProductMonotone(0.0, Down(k), 0.0, b);
    assert Down(k) * -b == -(Down(k) * b);
  }

  /** Two places for a span: as near as possible, and as far. */
  lemma NearAndFar(b1: int, b2: int, frame: int, span: real, over: real)
    requires SpanFits(b1 as real, b2 as real, frame as real, span, over)
    ensures AxisFits(b1, b2, frame, MaxReal(b1 as real, over), span, over)
    ensures AxisFits(b1, b2, frame, MinReal(b2 as real, frame as real - over) - span, span, over)
  {
  }

  /** Where to put a span that hangs over by more than `q` so that it passes a side. */
  function Outward(b1: int, b2: int, frame: int, pad: int, span: real, over: real): real {
    if pad < b1 then MaxReal(b1 as real, over) else MinReal(b2 as real, frame as real - over) - span
  }

  lemma OutwardLeaves(b1: int, b2: int, frame: int, pad: int, g: int, span: real, over: real)
    requires SpanFits(b1 as real, b2 as real, frame as real, span, over)
    requires over > (pad - g) as real && (pad < b1 || b2 + pad < frame) && g >= 0
    ensures AxisFits(b1, b2, frame, Outward(b1, b2, frame, pad, span, over), span, over)
    ensures var low := Outward(b1, b2, frame, pad, span, over);
            || low - over < (if pad < b1 then b1 - pad + g else 0) as real
            || low + span + over > (if b2 + pad < frame then b2 + pad - g else frame) as real
  {
    NearAndFar(b1, b2, frame, span, over);
  }

  lemma HangingEscapesX(rect: Rect, width: int, height: int, k: Pattern, g: int) returns (t: Held)
    requires IsBoardPattern(k) && 0 <= g <= PadX(rect, k) && Hangs(rect, width, height, k, PadX(rect, k) - g)
    requires PadX(rect, k) < rect.x1 || rect.x2 + PadX(rect, k) < width
    ensures FitsHeld(t, k, rect, width, height) && !OuterIn(t, k, Shrunk(rect, width, height, k, g))
  {
    hide FitsHeld, OuterIn, LowX, LowY, SpanX, SpanY, Over, PadX, PadY, HeldAt, Outward, Room, HangsOver, AxisFits,
      SpanFits, MaxReal, MinReal;
    var q := PadX(rect, k) - g;
    var a, b, e := StepsThatHang(k, RoomX(rect, width, q), RoomY(rect, height, q), q);
    var spanX, spanY, over := Across(k) * a + Down(k) * b, Across(k) * b + Down(k) * a, a + b;
    RoomAllows(rect.x1, rect.x2, width, q, spanX, e);
    RoomAllows(rect.y1, rect.y2, height, q, spanY, e);
    OutwardLeaves(rect.x1, rect.x2, width, PadX(rect, k), g, spanX, over);
    NearAndFar(rect.y1, rect.y2, height, spanY, over);
    var low := Outward(rect.x1, rect.x2, width, PadX(rect, k), spanX, over);
    t := HeldAt(low, MaxReal(rect.y1 as real, over), a, b, k);
    HeldAtMeans(low, MaxReal(rect.y1 as real, over), a, b, k);
    NotBoth(low, MaxReal(rect.y1 as real, over), a, b, k);
    HeldByExtents(t, k, rect, width, height);
    OuterByExtents(t, k, Shrunk(rect, width, height, k, g));
  }

  lemma NotBoth(lowX: real, lowY: real, a: real, b: real, k: Pattern)
    ensures a + b > 0.0 ==>
      HeldAt(lowX, lowY, a, b, k).ux != 0.0 || HeldAt(lowX, lowY, a, b, k).uy != 0.0
  {
  }

  lemma HangingEscapesY(rect: Rect, width: int, height: int, k: Pattern, g: int) returns (t: Held)
    requires IsBoardPattern(k) && 0 <= g <= PadY(rect, k) && Hangs(rect, width, height, k, PadY(rect, k) - g)
    requires PadY(rect, k) < rect.y1 || rect.y2 + PadY(rect, k) < height
    ensures FitsHeld(t, k, rect, width, height) && !OuterIn(t, k, Shrunk(rect, width, height, k, g))
  {
    hide FitsHeld, OuterIn, LowX, LowY, SpanX, SpanY, Over, PadX, PadY, HeldAt, Outward, Room, HangsOver, AxisFits,
      SpanFits, MaxReal, MinReal;
    var q := PadY(rect, k) - g;
    var a, b, e := StepsThatHang(k, RoomX(rect, width, q), RoomY(rect, height, q), q);
    var spanX, spanY, over := Across(k) * a + Down(k) * b, Across(k) * b + Down(k) * a, a + b;
    RoomAllows(rect.x1, rect.x2, width, q, spanX, e);
    RoomAllows(rect.y1, rect.y2, height, q, spanY, e);
    NearAndFar(rect.x1, rect.x2, width, spanX, over);
    OutwardLeaves(rect.y1, rect.y2, height, PadY(rect, k), g, spanY, over);
    var low := Outward(rect.y1, rect.y2, height, PadY(rect, k), spanY, over);
    t := HeldAt(MaxReal(rect.x1 as real, over), low, a, b, k);
    HeldAtMeans(MaxReal(rect.x1 as real, over), low, a, b, k);
    NotBoth(MaxReal(rect.x1 as real, over), low, a, b, k);
    HeldByExtents(t, k, rect, width, height);
    OuterByExtents(t, k, Shrunk(rect, width, height, k, g));
  }

  /** For every box, frame, pattern and margin: some board, held flat at some angle,
      fits the frame with its inner corners in the box and yet leaves the threshold
      region (less the margin), exactly when the sums of `Escapes` say so. */
  lemma EscapesExactly(rect: Rect, width: int, height: int, k: Pattern, g: int)
    requires IsBoardPattern(k) && rect.Width() >= 0 && rect.Height() >= 0 && 0 <= g <= 8
    ensures Escapes(rect, width, height, k, g) <==>
      exists t: Held :: FitsHeld(t, k, rect, width, height) && !OuterIn(t, k, Shrunk(rect, width, height, k, g))
  {
    hide FitsHeld, OuterIn, Hangs, Shrunk;
    PadAtLeastEight(rect.Width(), k.cols);
    PadAtLeastEight(rect.Height(), k.rows);
    var padX, padY := PadX(rect, k), PadY(rect, k);
    if (padX < rect.x1 || rect.x2 + padX < width) && Hangs(rect, width, height, k, padX - g) {
      var t := HangingEscapesX(rect, width, height, k, g);
    } else if Escapes(rect, width, height, k, g) {
      var t := HangingEscapesY(rect, width, height, k, g);
    }
    if t: Held :| FitsHeld(t, k, rect, width, height) && !OuterIn(t, k, Shrunk(rect, width, height, k, g)) {
      EscapingHangs(t, k, rect, width, height, g);
    }
  }

  // ----- the white border -----

  lemma BorderOfRegion(rect: Rect, width: int, height: int, k: Pattern, r: int, c: int)
    requires InFrame(rect, width, height)
    requires TB.ClipToFrame(ThresholdRegion(rect, width, height, k), width, height).OnBorder(r, c)
    ensures var s := Shrunk(rect, width, height, k, 0); c == s.x1 || c == s.x2 - 1 || r == s.y1 || r == s.y2 - 1
  {
    hide Shrunk, InFrame, ThresholdRegion;
    RegionContainsBox(rect, width, height, k);
    ShrunkByNothing(rect, width, height, k);
  }

  /** Where no board comes within two pixels of the region's sides, the white border
      meets no board, at whatever angle, but at an edge of the frame. */
  lemma BorderClearAtEveryAngle(rect: Rect, width: int, height: int, k: Pattern, t: Held, r: int, c: int)
    requires IsBoardPattern(k) && InFrame(rect, width, height) && !Escapes(rect, width, height, k, 2)
    requires FitsHeld(t, k, rect, width, height)
    requires LowX(t, k) - Over(t) <= c as real <= LowX(t, k) + SpanX(t, k) + Over(t)
    requires LowY(t, k) - Over(t) <= r as real <= LowY(t, k) + SpanY(t, k) + Over(t)
    requires TB.ClipToFrame(ThresholdRegion(rect, width, height, k), width, height).OnBorder(r, c)
    ensures c == 0 || c == width - 1 || r == 0 || r == height - 1
  {
    hide FitsHeld, OuterIn, Escapes, LowX, LowY, SpanX, SpanY, Over, PadX, PadY, ThresholdRegion, TB.ClipToFrame,
      TB.Box.OnBorder;
    EscapesExactly(rect, width, height, k, 2);
    OuterByExtents(t, k, Shrunk(rect, width, height, k, 2));
    BorderOfRegion(rect, width, height, k, r, c);
  }

  /** Along the shorter side of the pattern the padding is enough at every angle, with
      seven pixels to spare; a square pattern never leaves its region. */
  lemma PaddingOfShorterSide(rect: Rect, width: int, height: int, k: Pattern, g: int)
    requires IsBoardPattern(k) && rect.Width() >= 0 && rect.Height() >= 0 && 0 <= g <= 7
    ensures k.rows <= k.cols ==> !Hangs(rect, width, height, k, PadY(rect, k) - g)
    ensures k.cols <= k.rows ==> !Hangs(rect, width, height, k, PadX(rect, k) - g)
    ensures k.cols == k.rows ==> !Escapes(rect, width, height, k, g)
  {
    PadCovers(rect.Width(), k.cols, g);
    PadCovers(rect.Height(), k.rows, g);
  }

  lemma PadCovers(side: int, corners: int, g: int)
    requires corners >= 2 && side >= 0 && g <= 7
    ensures (corners - 1) * (Pad(side, corners) - g) > side
  {
    var m := corners - 1;
    var q := side / m;
    assert side < m * q + m;
    assert m * (q + 8 - g) == m * q + m * (8 - g);
    CancelLess(m, 0, 8 - g);
    assert m * (8 - g) >= m by { assert m * (8 - g) == m + m * (7 - g); }
  }
}
