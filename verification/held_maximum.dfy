// The largest fill over boards held flat at every angle: it is reached at a corner of a
// polygon with ten sides, so that a finite check decides what max_fill_pct bounds
// (tools/calibrate_camera.py: _axis_limit, max_fill_pct, fit_targets).
module HeldMaxima {
  import opened Wrappers
  import opened BoardFit
  import opened HeldBoards
  import opened HeldFills

  // ----- polygons -----

  /** p * a + q * b <= r. */
  datatype Half = Half(p: real, q: real, r: real)

  datatype Step = Step(a: real, b: real)

  function At(l: Half, z: Step): real {
    Times(l.p, z.a) + Times(l.q, z.b)
  }

  predicate Allows(ls: seq<Half>, z: Step) {
    forall i :: 0 <= i < |ls| ==> At(ls[i], z) <= ls[i].r
  }

  function Along(z: Step, d: Step, t: real): Step {
    Step(z.a + t * d.a, z.b + t * d.b)
  }

  lemma AtAlong(l: Half, z: Step, d: Step, t: real)
    ensures At(l, Along(z, d, t)) == At(l, z) + t * At(l, d)
  {
  }

  /** A side between two points of it that it allows. */
  lemma BetweenAllowed(l: Half, z: Step, d: Step, t: real, u: real)
    requires 0.0 <= u <= t && At(l, z) <= l.r && At(l, Along(z, d, t)) <= l.r
    ensures At(l, Along(z, d, u)) <= l.r
  {
    AtAlong(l, z, d, t);
    AtAlong(l, z, d, u);
    if At(l, d) >= 0.0 {
      ProductMonotone(u, t, At(l, d), At(l, d));
    } else {
      ProductMonotone(0.0, u, -At(l, d), -At(l, d));
    }
  }

  /** How far to go until a side ahead is reached. */
  lemma Reach(l: Half, z: Step, d: Step) returns (t: real)
    requires At(l, z) <= l.r && At(l, d) > 0.0
    ensures t >= 0.0 && At(l, Along(z, d, t)) == l.r
  {
    t := (l.r - At(l, z)) / At(l, d);
    AtAlong(l, z, d, t);
    CancelAtMost(0.0, t, At(l, d));
  }

  lemma NotAhead(l: Half, z: Step, d: Step, t: real)
    requires At(l, z) <= l.r && At(l, d) <= 0.0 && t >= 0.0
    ensures At(l, Along(z, d, t)) <= l.r
  {
    AtAlong(l, z, d, t);
    ProductMonotone(0.0, t, 0.0, -At(l, d));
  }

  /** Going on from a point of the polygon, the first side ahead is reached inside it. */
  lemma {:induction false} FirstHit(ls: seq<Half>, z: Step, d: Step, ahead: nat) returns (t: real, hit: nat)
    requires Allows(ls, z) && ahead < |ls| && At(ls[ahead], d) > 0.0
    ensures t >= 0.0 && hit < |ls| && At(ls[hit], d) > 0.0
    ensures At(ls[hit], Along(z, d, t)) == ls[hit].r && Allows(ls, Along(z, d, t))
  {
    hide At, Along;
    var n := |ls| - 1;
    var front, last := ls[..n], ls[n];
    assert forall i :: 0 <= i < n ==> front[i] == ls[i];
    if At(last, d) <= 0.0 {
      t, hit := FirstHit(front, z, d, ahead);
      NotAhead(last, z, d, t);
    } else {
      t := Reach(last, z, d);
      hit := n;
      if i: nat :| i < n && At(ls[i], d) > 0.0 {
        var u, first := FirstHit(front, z, d, i);
        if u <= t {
          BetweenAllowed(last, z, d, t, u);
          t, hit := u, first;
        } else {
          forall i | 0 <= i < n ensures At(ls[i], Along(z, d, t)) <= ls[i].r {
            assert front[i] == ls[i];
            BetweenAllowed(ls[i], z, d, u, t);
          }
        }
      } else {
        forall i | 0 <= i < n ensures At(ls[i], Along(z, d, t)) <= ls[i].r {
          NotAhead(ls[i], z, d, t);
        }
      }
    }
  }

  function Norm(z: Step): real { z.a * z.a + z.b * z.b }

  function Dot(z: Step, d: Step): real { z.a * d.a + z.b * d.b }

  /** Going on in a direction that does not lead back, one gets no nearer. */
  lemma FurtherOut(z: Step, d: Step, t: real)
    requires Dot(z, d) >= 0.0 && t >= 0.0
    ensures Norm(Along(z, d, t)) >= Norm(z)
  {
    NormAlong(z, d, t);
    ProductMonotone(0.0, t, 0.0, Dot(z, d));
    Square(t * d.a);
    Square(t * d.b);
  }

  lemma NormAlong(z: Step, d: Step, t: real)
    ensures Norm(Along(z, d, t)) == Norm(z) + 2.0 * (t * Dot(z, d)) + ((t * d.a) * (t * d.a) + (t * d.b) * (t * d.b))
  {
  }

  function Det(l: Half, k: Half): real { l.p * k.q - l.q * k.p }

  /** Where two sides cross, unless they are parallel. */
  function Crossing(l: Half, k: Half): Step {
    if Det(l, k) == 0.0 then Step(0.0, 0.0)
    else Step((l.r * k.q - l.q * k.r) / Det(l, k), (l.p * k.r - l.r * k.p) / Det(l, k))
  }

  lemma OnBoth(l: Half, k: Half, z: Step)
    requires Det(l, k) != 0.0 && At(l, z) == l.r && At(k, z) == k.r
    ensures z == Crossing(l, k)
  {
    var d := Det(l, k);
    assert l.r * k.q - l.q * k.r == z.a * d;
    assert l.p * k.r - l.r * k.p == z.b * d;
    DivideOut(z.a, d);
    DivideOut(z.b, d);
  }

  lemma DivideOut(x: real, d: real)
    requires d != 0.0
    ensures x * d / d == x
  {
  }

  /** A corner of the polygon. */
  predicate IsCorner(ls: seq<Half>, i: nat, j: nat)
    requires i < |ls| && j < |ls|
  {
    Det(ls[i], ls[j]) != 0.0 && Allows(ls, Crossing(ls[i], ls[j]))
  }

  lemma OnTheSide(l: Half, z: Step, d: Step, t: real)
    requires At(l, z) == l.r && At(l, d) == 0.0
    ensures At(l, Along(z, d, t)) == l.r
  {
    AtAlong(l, z, d, t);
  }

  lemma AlongSide(l: Half, k: Half)
    ensures At(l, Step(-l.q, l.p)) == 0.0 && At(l, Step(l.q, -l.p)) == 0.0
    ensures At(k, Step(-l.q, l.p)) == Det(l, k) && At(k, Step(l.q, -l.p)) == -Det(l, k)
  {
  }

  lemma EitherWay(l: Half, z: Step)
    ensures Dot(z, Step(l.q, -l.p)) == -Dot(z, Step(-l.q, l.p))
  {
  }

  /** From a point on a side that leans, a corner on it lies no nearer. */
  lemma CornerOnSide(ls: seq<Half>, z: Step, i: nat, left: nat, below: nat) returns (j: nat)
    requires Allows(ls, z) && i < |ls| && At(ls[i], z) == ls[i].r && ls[i].p > 0.0 && ls[i].q > 0.0
    requires left < |ls| && ls[left] == Half(-1.0, 0.0, 0.0) && below < |ls| && ls[below] == Half(0.0, -1.0, 0.0)
    ensures j < |ls| && IsCorner(ls, i, j) && Norm(Crossing(ls[i], ls[j])) >= Norm(z)
  {
    var l := ls[i];
    AlongSide(l, ls[left]);
    AlongSide(l, ls[below]);
    EitherWay(l, z);
    var up, down := Step(-l.q, l.p), Step(l.q, -l.p);
    var t: real;
    if Dot(z, up) >= 0.0 {
      t, j := FirstHit(ls, z, up, left);
      TakeCorner(ls, z, up, t, i, j);
    } else {
      t, j := FirstHit(ls, z, down, below);
      TakeCorner(ls, z, down, t, i, j);
    }
  }

  lemma TakeCorner(ls: seq<Half>, z: Step, d: Step, t: real, i: nat, j: nat)
    requires i < |ls| && j < |ls| && At(ls[i], z) == ls[i].r && At(ls[j], d) > 0.0 && t >= 0.0 && Dot(z, d) >= 0.0
    requires d == Step(-ls[i].q, ls[i].p) || d == Step(ls[i].q, -ls[i].p)
    requires At(ls[j], Along(z, d, t)) == ls[j].r && Allows(ls, Along(z, d, t))
    ensures IsCorner(ls, i, j) && Norm(Crossing(ls[i], ls[j])) >= Norm(z)
  {
    hide At, Det, Dot, Norm, Along, Crossing, Allows;
    AlongSide(ls[i], ls[j]);
    OnTheSide(ls[i], z, d, t);
    OnBoth(ls[i], ls[j], Along(z, d, t));
    FurtherOut(z, d, t);
  }

  // ----- the polygon of a target -----

  /** What the steps of a board along and across the axes must satisfy for some place
      to have its inner corners in the box and all of it in the frame. */
  function Polygon(rect: Rect, width: int, height: int, k: Pattern): seq<Half> {
    var m, n := Across(k), Down(k);
    [Half(m, n, (rect.x2 - rect.x1) as real), Half(m + 1.0, n + 1.0, (width - rect.x1) as real),
     Half(m + 1.0, n + 1.0, rect.x2 as real), Half(m + 2.0, n + 2.0, width as real),
     Half(n, m, (rect.y2 - rect.y1) as real), Half(n + 1.0, m + 1.0, (height - rect.y1) as real),
     Half(n + 1.0, m + 1.0, rect.y2 as real), Half(n + 2.0, m + 2.0, height as real),
     Half(-1.0, 0.0, 0.0), Half(0.0, -1.0, 0.0)]
  }

  predicate AxisAllows(b1: int, b2: int, frame: int, m: real, n: real, z: Step) {
    && At(Half(m, n, (b2 - b1) as real), z) <= (b2 - b1) as real
    && At(Half(m + 1.0, n + 1.0, (frame - b1) as real), z) <= (frame - b1) as real
    && At(Half(m + 1.0, n + 1.0, b2 as real), z) <= b2 as real
    && At(Half(m + 2.0, n + 2.0, frame as real), z) <= frame as real
  }

  lemma AxisAllowsMeans(b1: int, b2: int, frame: int, m: real, n: real, z: Step)
    ensures AxisAllows(b1, b2, frame, m, n, z) <==>
              SpanFits(b1 as real, b2 as real, frame as real, Times(m, z.a) + Times(n, z.b), z.a + z.b)
  {
  }

  lemma PolygonByAxes(rect: Rect, width: int, height: int, k: Pattern, z: Step)
    ensures Allows(Polygon(rect, width, height, k), z) <==>
              && AxisAllows(rect.x1, rect.x2, width, Across(k), Down(k), z)
              && AxisAllows(rect.y1, rect.y2, height, Down(k), Across(k), z)
              && At(Half(-1.0, 0.0, 0.0), z) <= 0.0 && At(Half(0.0, -1.0, 0.0), z) <= 0.0
  {
    hide At, Across, Down;
    var ls := Polygon(rect, width, height, k);
    if Allows(ls, z) {
      assert At(ls[0], z) <= ls[0].r && At(ls[1], z) <= ls[1].r && At(ls[2], z) <= ls[2].r && At(ls[3], z) <= ls[3].r;
      assert At(ls[4], z) <= ls[4].r && At(ls[5], z) <= ls[5].r && At(ls[6], z) <= ls[6].r && At(ls[7], z) <= ls[7].r;
      assert At(ls[8], z) <= ls[8].r && At(ls[9], z) <= ls[9].r;
    }
  }

  lemma PolygonMeans(rect: Rect, width: int, height: int, k: Pattern, z: Step)
    ensures Allows(Polygon(rect, width, height, k), z) <==>
              && z.a >= 0.0 && z.b >= 0.0
              && SpanFits(rect.x1 as real, rect.x2 as real, width as real,
                          Times(Across(k), z.a) + Times(Down(k), z.b), z.a + z.b)
              && SpanFits(rect.y1 as real, rect.y2 as real, height as real,
                          Times(Down(k), z.a) + Times(Across(k), z.b), z.a + z.b)
  {
    hide AxisAllows, SpanFits, Across, Down, Polygon, Allows;
    PolygonByAxes(rect, width, height, k, z);
    AxisAllowsMeans(rect.x1, rect.x2, width, Across(k), Down(k), z);
    AxisAllowsMeans(rect.y1, rect.y2, height, Down(k), Across(k), z);
  }

  lemma LeaningSide(ls: seq<Half>, rect: Rect, width: int, height: int, k: Pattern, i: nat, z: Step)
    requires IsBoardPattern(k) && ls == Polygon(rect, width, height, k) && i < |ls|
    requires z.a >= 0.0 && z.b >= 0.0 && At(ls[i], z) > 0.0
    ensures ls[i].p > 0.0 && ls[i].q > 0.0
  {
  }

  /** A point of the polygon is no further out than some corner. */
  lemma CornerBeyond(rect: Rect, width: int, height: int, k: Pattern, z: Step) returns (i: nat, j: nat)
    requires IsBoardPattern(k) && Allows(Polygon(rect, width, height, k), z) && z != Step(0.0, 0.0)
    ensures var ls := Polygon(rect, width, height, k);
            i < |ls| && j < |ls| && IsCorner(ls, i, j) && Norm(Crossing(ls[i], ls[j])) >= Norm(z)
  {
    hide SpanFits, Allows, Along, IsCorner, Crossing;
    var ls := Polygon(rect, width, height, k);
    PolygonMeans(rect, width, height, k, z);
    FirstSideAhead(rect, width, height, k, z);
    hide Polygon, At, Norm, Dot;
    var t, hit := FirstHit(ls, z, z, 0);
    i := hit;
    LeaningSide(ls, rect, width, height, k, i, z);
    FurtherOut(z, z, t);
    j := CornerOnSide(ls, Along(z, z, t), i, 8, 9);
  }

  lemma FirstSideAhead(rect: Rect, width: int, height: int, k: Pattern, z: Step)
    requires IsBoardPattern(k) && z.a >= 0.0 && z.b >= 0.0 && z != Step(0.0, 0.0)
    ensures var ls := Polygon(rect, width, height, k);
            |ls| == 10 && At(ls[0], z) > 0.0 && ls[8] == Half(-1.0, 0.0, 0.0) && ls[9] == Half(0.0, -1.0, 0.0)
    ensures Dot(z, z) >= 0.0
  {
    Sides(k);
    ProductMonotone(1.0, Across(k), z.a, z.a);
    ProductMonotone(1.0, Down(k), z.b, z.b);
    Square(z.a);
    Square(z.b);
  }

  // ----- boards and points of the polygon -----

  function StepOf(t: Held): Step {
    Step(AbsReal(t.ux), AbsReal(t.uy))
  }

  lemma SpansOfStep(t: Held, k: Pattern)
    ensures SpanX(t, k) == Times(Across(k), StepOf(t).a) + Times(Down(k), StepOf(t).b)
    ensures SpanY(t, k) == Times(Down(k), StepOf(t).a) + Times(Across(k), StepOf(t).b)
    ensures Over(t) == StepOf(t).a + StepOf(t).b && StepOf(t).a >= 0.0 && StepOf(t).b >= 0.0
    ensures StepOf(t) == Step(0.0, 0.0) <==> t.ux == 0.0 && t.uy == 0.0
    ensures Norm(StepOf(t)) == t.ux * t.ux + t.uy * t.uy
  {
    hide Times;
    assert AbsReal(-t.uy) == AbsReal(t.uy);
    SquareOfAbs(t.ux);
    SquareOfAbs(t.uy);
  }

  lemma AxisFitsSpan(b1: int, b2: int, frame: int, low: real, span: real, over: real)
    requires AxisFits(b1, b2, frame, low, span, over)
    ensures SpanFits(b1 as real, b2 as real, frame as real, span, over)
  {
  }

  /** A board that fits is a point of the polygon. */
  lemma FittingIsAllowed(t: Held, k: Pattern, rect: Rect, width: int, height: int)
    requires IsBoardPattern(k) && FitsHeld(t, k, rect, width, height)
    ensures Allows(Polygon(rect, width, height, k), StepOf(t)) && StepOf(t) != Step(0.0, 0.0)
  {
    hide FitsHeld, LowX, LowY, SpanX, SpanY, Over, SpanFits, AxisFits, Allows, Polygon, StepOf, Times, Across, Down,
      Norm;
    HeldByExtents(t, k, rect, width, height);
    SpansOfStep(t, k);
    AxisFitsSpan(rect.x1, rect.x2, width, LowX(t, k), SpanX(t, k), Over(t));
    AxisFitsSpan(rect.y1, rect.y2, height, LowY(t, k), SpanY(t, k), Over(t));
    PolygonMeans(rect, width, height, k, StepOf(t));
  }

  lemma StepsOfHeldAt(lowX: real, lowY: real, z: Step, k: Pattern)
    ensures HeldAt(lowX, lowY, z.a, z.b, k).ux == z.a && HeldAt(lowX, lowY, z.a, z.b, k).uy == z.b
  {
  }

  lemma SpanTerms(m: real, n: real, z: Step)
    ensures Times(m, z.a) + Times(n, z.b) == m * z.a + n * z.b
    ensures Times(n, z.a) + Times(m, z.b) == m * z.b + n * z.a
  {
  }

  /** Every other point of the polygon is a board that fits. */
  lemma AllowedFits(z: Step, k: Pattern, rect: Rect, width: int, height: int) returns (t: Held)
    requires IsBoardPattern(k) && Allows(Polygon(rect, width, height, k), z) && z != Step(0.0, 0.0)
    ensures FitsHeld(t, k, rect, width, height) && t.ux == z.a && t.uy == z.b
  {
    hide FitsHeld, LowX, LowY, SpanX, SpanY, Over, SpanFits, AxisFits, Allows, Polygon, MaxReal, MinReal, Across, Down,
      Times, HeldAt;
    PolygonMeans(rect, width, height, k, z);
    var over, lowX, lowY := z.a + z.b, MaxReal(rect.x1 as real, z.a + z.b), MaxReal(rect.y1 as real, z.a + z.b);
    SpanTerms(Across(k), Down(k), z);
    var spanX, spanY := Across(k) * z.a + Down(k) * z.b, Across(k) * z.b + Down(k) * z.a;
    NearAndFar(rect.x1, rect.x2, width, spanX, over);
    NearAndFar(rect.y1, rect.y2, height, spanY, over);
    t := HeldAt(lowX, lowY, z.a, z.b, k);
    HeldAtMeans(lowX, lowY, z.a, z.b, k);
    StepsOfHeldAt(lowX, lowY, z, k);
    assert z == Step(z.a, z.b);
    FitsByExtents(t, k, rect, width, height, lowX, lowY, spanX, spanY, over);
  }

  lemma FitsByExtents(t: Held, k: Pattern, rect: Rect, width: int, height: int,
                      lowX: real, lowY: real, spanX: real, spanY: real, over: real)
    requires IsBoardPattern(k) && (t.ux != 0.0 || t.uy != 0.0)
    requires LowX(t, k) == lowX && LowY(t, k) == lowY && SpanX(t, k) == spanX && SpanY(t, k) == spanY && Over(t) == over
    requires AxisFits(rect.x1, rect.x2, width, lowX, spanX, over)
    requires AxisFits(rect.y1, rect.y2, height, lowY, spanY, over)
    ensures FitsHeld(t, k, rect, width, height)
  {
    hide *;
    HeldByExtents(t, k, rect, width, height);
  }

  /** Squares between the outermost inner corners. */
  function Cells(k: Pattern): real { Across(k) * Down(k) }

  /** The fill of a board with these steps. */
  function StepFill(z: Step, k: Pattern, rect: Rect): real
    requires rect.Width() > 0 && rect.Height() > 0
  {
    PositiveProduct(rect.Width(), rect.Height());
    Percent(Times(Cells(k), Norm(z)), (rect.Width() * rect.Height()) as real)
  }

  lemma AreaOfStep(t: Held, k: Pattern)
    ensures Times(Cells(k), Norm(StepOf(t))) == Across(k) * Down(k) * (t.ux * t.ux + t.uy * t.uy)
  {
    hide Norm, Across, Down, StepOf;
    SpansOfStep(t, k);
  }

  lemma FillOfStep(t: Held, k: Pattern, rect: Rect)
    requires IsBoardPattern(k) && rect.Width() > 0 && rect.Height() > 0
    ensures HeldFill(t, k, rect) == StepFill(StepOf(t), k, rect)
  {
    hide HeldView, Percent, QuadArea, ViewFill, Norm, Times, Across, Down, Cells, StepOf;
    ViewArea(t, k);
    ViewCorners(t, k);
    AreaOfStep(t, k);
    ViewFillOfArea(HeldView(t, k), k, rect, Times(Cells(k), Norm(StepOf(t))));
  }

  lemma FillGrows(y: Step, z: Step, k: Pattern, rect: Rect)
    requires IsBoardPattern(k) && rect.Width() > 0 && rect.Height() > 0 && Norm(y) <= Norm(z)
    ensures 0.0 <= StepFill(y, k, rect) <= StepFill(z, k, rect)
  {
    Sides(k);
    var whole := (rect.Width() * rect.Height()) as real;
    PositiveProduct(rect.Width(), rect.Height());
    Square(y.a);
    Square(y.b);
    ProductMonotone(1.0, Across(k), 1.0, Down(k));
    ProductMonotone(Cells(k), Cells(k), Norm(y), Norm(z));
    hide Norm;
    QuotientMonotone(0.0, 100.0 * Times(Cells(k), Norm(y)), whole);
    QuotientMonotone(100.0 * Times(Cells(k), Norm(y)), 100.0 * Times(Cells(k), Norm(z)), whole);
  }

  // ----- the largest fill -----

  /** Some corner of the polygon fills at least this much. */
  ghost predicate CornerFills(rect: Rect, width: int, height: int, k: Pattern, least: real)
    requires rect.Width() > 0 && rect.Height() > 0
  {
    var ls := Polygon(rect, width, height, k);
    exists i: nat, j: nat ::
      i < |ls| && j < |ls| && IsCorner(ls, i, j) && StepFill(Crossing(ls[i], ls[j]), k, rect) >= least
  }

  /** Some board, held flat at some angle, fits and fills at least a positive share of
      the box exactly when a corner of the polygon does: at most 45 of them to try. */
  lemma FillReachedAtCorner(rect: Rect, width: int, height: int, k: Pattern, least: real)
    requires IsBoardPattern(k) && rect.Width() > 0 && rect.Height() > 0 && least > 0.0
    ensures CornerFills(rect, width, height, k, least) <==>
      exists t: Held :: FitsHeld(t, k, rect, width, height) && HeldFill(t, k, rect) >= least
  {
    hide FitsHeld, HeldFill, StepFill, Polygon, IsCorner, Crossing, Norm, Allows;
    var ls := Polygon(rect, width, height, k);
    if CornerFills(rect, width, height, k, least) {
      var i: nat, j: nat :| i < |ls| && j < |ls| && IsCorner(ls, i, j)
                            && StepFill(Crossing(ls[i], ls[j]), k, rect) >= least;
      var t := BoardAtCorner(rect, width, height, k, i, j, least);
    }
    if t: Held :| FitsHeld(t, k, rect, width, height) && HeldFill(t, k, rect) >= least {
      FittingIsAllowed(t, k, rect, width, height);
      FillOfStep(t, k, rect);
      var i, j := CornerBeyond(rect, width, height, k, StepOf(t));
      FillGrows(StepOf(t), Crossing(ls[i], ls[j]), k, rect);
    }
  }

  lemma BoardAtCorner(rect: Rect, width: int, height: int, k: Pattern, i: nat, j: nat, least: real) returns (t: Held)
    requires IsBoardPattern(k) && rect.Width() > 0 && rect.Height() > 0 && least > 0.0
    requires var ls := Polygon(rect, width, height, k);
             i < |ls| && j < |ls| && IsCorner(ls, i, j) && StepFill(Crossing(ls[i], ls[j]), k, rect) >= least
    ensures FitsHeld(t, k, rect, width, height) && HeldFill(t, k, rect) >= least
  {
    hide FitsHeld, HeldFill, Polygon, Crossing, Norm, Allows, StepFill;
    var ls := Polygon(rect, width, height, k);
    var z := Crossing(ls[i], ls[j]);
    NothingFills(k, rect);
    PolygonMeans(rect, width, height, k, z);
    t := AllowedFits(z, k, rect, width, height);
    FillOfStep(t, k, rect);
  }

  lemma NothingFills(k: Pattern, rect: Rect)
    requires rect.Width() > 0 && rect.Height() > 0
    ensures StepFill(Step(0.0, 0.0), k, rect) == 0.0
  {
    hide Times, Norm, Percent, Cells;
    NoArea(Cells(k));
    NoPercent((rect.Width() * rect.Height()) as real);
    PositiveProduct(rect.Width(), rect.Height());
  }

  lemma NoArea(m: real)
    ensures Times(m, Norm(Step(0.0, 0.0))) == 0.0
  {
    assert Norm(Step(0.0, 0.0)) == 0.0;
    hide Norm;
  }

  lemma NoPercent(whole: real)
    ensures whole != 0.0 ==> Percent(0.0, whole) == 0.0
  {
  }

  /** max_fill_pct bounds what boards held flat at every angle cover exactly when no
      corner of the polygon covers more. */
  lemma MaxFillBoundsEveryAngle(rect: Rect, width: int, height: int, k: Pattern, most: real)
    requires IsBoardPattern(k) && rect.Width() > 0 && rect.Height() > 0
    requires MaxFillPct(rect, width, height, k) == Success(most)
    ensures (forall t: Held :: FitsHeld(t, k, rect, width, height) ==> HeldFill(t, k, rect) <= most) <==>
            var ls := Polygon(rect, width, height, k);
            forall i: nat, j: nat :: i < |ls| && j < |ls| && IsCorner(ls, i, j) ==>
              StepFill(Crossing(ls[i], ls[j]), k, rect) <= most
  {
    hide FitsHeld, HeldFill, StepFill, Polygon, IsCorner, Crossing, MaxFillPct;
    var ls := Polygon(rect, width, height, k);
    MaxFillNotNegative(rect, width, height, k);
    if t: Held :| FitsHeld(t, k, rect, width, height) && HeldFill(t, k, rect) > most {
      FillReachedAtCorner(rect, width, height, k, HeldFill(t, k, rect));
    }
    if i: nat, j: nat :| i < |ls| && j < |ls| && IsCorner(ls, i, j) &&
                         StepFill(Crossing(ls[i], ls[j]), k, rect) > most {
      FillReachedAtCorner(rect, width, height, k, StepFill(Crossing(ls[i], ls[j]), k, rect));
    }
  }

  /** A target is out of reach of every board held flat exactly when no corner reaches
      the floor once the headroom is taken off. */
  lemma OutOfReachAtEveryAngle(rect: Rect, width: int, height: int, k: Pattern)
    requires IsBoardPattern(k) && rect.Width() > 0 && rect.Height() > 0
    ensures !CornerFills(rect, width, height, k, FILL_FLOOR as real / FILL_HEADROOM) <==>
      forall t: Held :: FitsHeld(t, k, rect, width, height) ==>
        HeldFill(t, k, rect) * FILL_HEADROOM < FILL_FLOOR as real
  {
    hide FitsHeld, HeldFill, CornerFills;
    var least := FILL_FLOOR as real / FILL_HEADROOM;
    FillReachedAtCorner(rect, width, height, k, least);
    forall t: Held | FitsHeld(t, k, rect, width, height)
      ensures HeldFill(t, k, rect) >= least <==> HeldFill(t, k, rect) * FILL_HEADROOM >= FILL_FLOOR as real
    {
      CancelAtMost(least, HeldFill(t, k, rect), FILL_HEADROOM);
    }
  }
}
