// Target tables and fit_targets (tools/calibrate_camera.py): thresholds are
// lowered to what the board can reach, and unreachable targets are dropped.
module FitTargets {
  import opened Wrappers
  import opened BoardFit

  const TARGETS_STANDARD: seq<Target> := [
    Target(0, 0, 60, 60, 45, 2), Target(40, 0, 100, 60, 45, 2),
    Target(40, 40, 100, 100, 45, 2), Target(0, 40, 60, 100, 45, 2),
    Target(15, 10, 85, 90, 45, 3),
    Target(25, 10, 75, 45, 30, 2), Target(25, 55, 75, 90, 30, 2),
    Target(0, 0, 50, 100, 45, 2), Target(25, 0, 75, 100, 45, 2), Target(50, 0, 100, 100, 45, 2)]

  const TARGETS_FISHEYE: seq<Target> := [
    Target(0, 0, 70, 60, 45, 3), Target(30, 0, 100, 60, 45, 3),
    Target(30, 40, 100, 100, 45, 3), Target(0, 40, 70, 100, 45, 3),
    Target(15, 10, 85, 90, 50, 3)]

  const TARGETS_FISHEYE_WIDE: seq<Target> := [
    Target(0, 0, 50, 60, 40, 3), Target(50, 0, 100, 60, 40, 3),
    Target(50, 40, 100, 100, 40, 3), Target(0, 40, 50, 100, 40, 3),
    Target(15, 10, 85, 90, 45, 3)]

  function GetTargets(width: int, height: int, fisheye: bool): seq<Target>
    requires height > 0
  {
    if !fisheye then TARGETS_STANDARD
    else if width as real / height as real < 1.45 then TARGETS_FISHEYE
    else TARGETS_FISHEYE_WIDE
  }

  /** The gentler fisheye set is for frames narrower than 1.45 to 1; the sets ask for 22,
      15 and 15 samples. */
  lemma TargetsByShape(width: int, height: int)
    requires height > 0
    ensures GetTargets(width, height, false) == TARGETS_STANDARD
    ensures GetTargets(width, height, true) ==
              if 100 * width < 145 * height then TARGETS_FISHEYE else TARGETS_FISHEYE_WIDE
    ensures |TARGETS_STANDARD| == 10 && |TARGETS_FISHEYE| == |TARGETS_FISHEYE_WIDE| == 5
  {
    var q := width as real / height as real;
    assert q * height as real == width as real;
    CancelAtMost(1.45, q, height as real);
  }

  /** A rectangle inside the frame, a threshold above the floor, samples wanted. */
  predicate WellFormed(t: Target) {
    0 <= t.x1 < t.x2 <= 100 && 0 <= t.y1 < t.y2 <= 100 && FILL_FLOOR <= t.fill && 1 <= t.samples
  }

  lemma ShippedTargetsAreWellFormed(width: int, height: int, fisheye: bool)
    requires height > 0
    ensures forall i :: 0 <= i < |GetTargets(width, height, fisheye)| ==>
            WellFormed(GetTargets(width, height, fisheye)[i])
  {
  }

  /** Board, frame and table entry decide whether max_fill_pct raises. */
  predicate Raises(t: Target, width: int, height: int, k: Pattern) {
    MaxFillPct(PixelRect(t, width, height), width, height, k).Failure?
  }

  /** The fill a target can demand of this board. */
  function Reachable(t: Target, width: int, height: int, k: Pattern): real
    requires !Raises(t, width, height, k)
  {
    MaxFillPct(PixelRect(t, width, height), width, height, k).value * FILL_HEADROOM
  }

  predicate Kept(t: Target, width: int, height: int, k: Pattern)
    requires !Raises(t, width, height, k)
  {
    Reachable(t, width, height, k) >= FILL_FLOOR as real
  }

  /** The threshold moves only down, to the whole percent below what is reachable. */
  function Lowered(t: Target, width: int, height: int, k: Pattern): Target
    requires !Raises(t, width, height, k)
  {
    if t.fill as real > Reachable(t, width, height, k) then t.(fill := Reachable(t, width, height, k).Floor) else t
  }

  /** `kept` are the indices of the surviving targets, in table order. */
  ghost predicate IsFitted(targets: seq<Target>, width: int, height: int, k: Pattern, fitted: seq<Target>,
                           kept: seq<nat>) {
    && |kept| == |fitted|
    && (forall i :: 0 <= i < |targets| ==> !Raises(targets[i], width, height, k))
    && (forall a, b :: 0 <= a < b < |kept| ==> kept[a] < kept[b])
    && (forall a :: 0 <= a < |kept| ==> kept[a] < |targets|)
    && (forall a :: 0 <= a < |kept| ==>
          Kept(targets[kept[a]], width, height, k) && fitted[a] == Lowered(targets[kept[a]], width, height, k))
    && (forall i :: 0 <= i < |targets| && Kept(targets[i], width, height, k) ==> i in kept)
  }

  /** One more target that survives. */
  lemma FittedKeeps(targets: seq<Target>, t: Target, width: int, height: int, k: Pattern, fitted: seq<Target>,
                    kept: seq<nat>)
    requires IsFitted(targets, width, height, k, fitted, kept)
    requires !Raises(t, width, height, k) && Kept(t, width, height, k)
    ensures IsFitted(targets + [t], width, height, k, fitted + [Lowered(t, width, height, k)], kept + [|targets|])
  {
    hide Raises, Kept, Lowered;
    forall i | 0 <= i < |targets + [t]| && Kept((targets + [t])[i], width, height, k)
      ensures i in kept + [|targets|]
    {
      assert i < |targets| ==> (targets + [t])[i] == targets[i];
    }
  }

  /** One more target that is out of reach. */
  lemma FittedDrops(targets: seq<Target>, t: Target, width: int, height: int, k: Pattern, fitted: seq<Target>,
                    kept: seq<nat>)
    requires IsFitted(targets, width, height, k, fitted, kept)
    requires !Raises(t, width, height, k) && !Kept(t, width, height, k)
    ensures IsFitted(targets + [t], width, height, k, fitted, kept)
  {
    hide Raises, Kept, Lowered;
  }

  // ----- what the fitted thresholds are -----

  /** Some board held upright fits the target's box and the frame and, less the headroom
      of 15 percent, still fills this much of it. */
  ghost predicate Attainable(t: Target, width: int, height: int, k: Pattern, percent: real) {
    var rect := PixelRect(t, width, height);
    rect.Width() > 0 && rect.Height() > 0 && exists b: Board ::
      Fits(b, k, rect, width, height) && BoardFill(b, k, rect) * 0.85 >= percent
  }

  /** A surviving target is the table's but for its threshold. That is the table's as long
      as some board attains it; otherwise it is the largest whole percentage that one
      attains. */
  ghost predicate AsFitted(t: Target, u: Target, width: int, height: int, k: Pattern) {
    && u == t.(fill := u.fill)
    && (Attainable(t, width, height, k, t.fill as real) ==> u.fill == t.fill)
    && (!Attainable(t, width, height, k, t.fill as real) ==>
          && u.fill < t.fill && Attainable(t, width, height, k, u.fill as real)
          && !Attainable(t, width, height, k, (u.fill + 1) as real))
  }

  lemma AttainableExactly(t: Target, width: int, height: int, k: Pattern, percent: real)
    requires IsBoardPattern(k) && !Raises(t, width, height, k) && percent > 0.0
    ensures Attainable(t, width, height, k, percent) <==> Reachable(t, width, height, k) >= percent
  {
    hide Fits, BoardFill, PixelRect;
    var rect := PixelRect(t, width, height);
    if rect.Width() > 0 && rect.Height() > 0 {
      MaxFillExact(rect, width, height, k);
      var most := MaxFillPct(rect, width, height, k).value;
      hide MaxFillPct;
      if Attainable(t, width, height, k, percent) {
        var b: Board :| Fits(b, k, rect, width, height) && BoardFill(b, k, rect) * 0.85 >= percent;
      }
      if most * FILL_HEADROOM >= percent {
        var b: Board :| Fits(b, k, rect, width, height) && BoardFill(b, k, rect) == most;
      }
    }
  }

  lemma KeptExactly(t: Target, width: int, height: int, k: Pattern)
    requires IsBoardPattern(k) && !Raises(t, width, height, k)
    ensures Kept(t, width, height, k) <==> Attainable(t, width, height, k, 15.0)
  {
    hide Attainable, Raises, Reachable;
    AttainableExactly(t, width, height, k, 15.0);
  }

  lemma AttainableLess(t: Target, width: int, height: int, k: Pattern, percent: real, less: real)
    requires Attainable(t, width, height, k, percent) && less <= percent
    ensures Attainable(t, width, height, k, less)
  {
    hide Fits, BoardFill, PixelRect;
    var rect := PixelRect(t, width, height);
    var b: Board :| Fits(b, k, rect, width, height) && BoardFill(b, k, rect) * 0.85 >= percent;
    assert BoardFill(b, k, rect) * 0.85 >= less;
  }

  lemma LoweredAsFitted(t: Target, width: int, height: int, k: Pattern)
    requires IsBoardPattern(k) && !Raises(t, width, height, k) && Kept(t, width, height, k)
    ensures AsFitted(t, Lowered(t, width, height, k), width, height, k)
  {
    hide Attainable, Raises, Reachable;
    var u := Lowered(t, width, height, k);
    if t.fill >= 1 {
      AttainableExactly(t, width, height, k, t.fill as real);
      if u.fill < t.fill {
        AttainableExactly(t, width, height, k, u.fill as real);
        AttainableExactly(t, width, height, k, (u.fill + 1) as real);
      }
    } else {
      KeptExactly(t, width, height, k);
      AttainableLess(t, width, height, k, 15.0, t.fill as real);
    }
  }

  /** What fitting makes of a table: the targets of which some upright board attains 15
      percent, in their order, each fitted. */
  lemma FittedMeans(targets: seq<Target>, width: int, height: int, k: Pattern, fitted: seq<Target>, kept: seq<nat>)
    requires IsBoardPattern(k) && IsFitted(targets, width, height, k, fitted, kept)
    ensures forall a :: 0 <= a < |kept| ==>
      AsFitted(targets[kept[a]], fitted[a], width, height, k)
    ensures forall i :: 0 <= i < |targets| ==>
      (i in kept <==> Attainable(targets[i], width, height, k, 15.0))
  {
    hide AsFitted, Attainable, Raises, Kept, Lowered;
    forall a | 0 <= a < |kept|
      ensures AsFitted(targets[kept[a]], fitted[a], width, height, k)
    {
      LoweredAsFitted(targets[kept[a]], width, height, k);
    }
    forall i | 0 <= i < |targets| ensures i in kept <==> Attainable(targets[i], width, height, k, 15.0) {
      KeptExactly(targets[i], width, height, k);
    }
  }

  method Fit(targets: seq<Target>, width: int, height: int, k: Pattern)
    returns (r: Result<seq<Target>, FitError>, ghost kept: seq<nat>)
    ensures r.Success? ==> IsFitted(targets, width, height, k, r.value, kept)
    ensures r.Failure? <==> exists i :: 0 <= i < |targets| && Raises(targets[i], width, height, k)
    ensures r.Success? && IsBoardPattern(k) ==>
      && |kept| == |r.value|
      && (forall a :: 0 <= a < |kept| ==> kept[a] < |targets| && (a > 0 ==> kept[a - 1] < kept[a]))
      && (forall a :: 0 <= a < |kept| ==>
            AsFitted(targets[kept[a]], r.value[a], width, height, k))
      && (forall i :: 0 <= i < |targets| ==> (i in kept <==> Attainable(targets[i], width, height, k, 15.0)))
  {
    hide IsFitted, MaxFillPct, PixelRect, AsFitted, Attainable;
    var out: seq<Target> := [];
    kept := [];
    NothingFitted(width, height, k);
    assert targets[..0] == [];
    for i := 0 to |targets|
      invariant IsFitted(targets[..i], width, height, k, out, kept)
      invariant forall j :: 0 <= j < i ==> !Raises(targets[j], width, height, k)
    {
      var t := targets[i];
      assert targets[..i + 1] == targets[..i] + [t];
      var rect := PixelRect(t, width, height);
      var most := MaxFillPct(rect, width, height, k);
      if most.Failure? {
        assert Raises(targets[i], width, height, k);
        return Failure(most.error), kept;
      }
      var reachable := most.value * FILL_HEADROOM;
      if reachable >= FILL_FLOOR as real {
        var fill := t.fill;
        if fill as real > reachable {
          fill := reachable.Floor;
        }
        FittedKeeps(targets[..i], t, width, height, k, out, kept);
        out := out + [t.(fill := fill)];
        kept := kept + [i];
      } else {
        FittedDrops(targets[..i], t, width, height, k, out, kept);
      }
    }
    assert targets[..|targets|] == targets;
    r := Success(out);
    if IsBoardPattern(k) {
      FittedMeans(targets, width, height, k, out, kept);
      FittedShape(targets, width, height, k, out, kept);
    }
  }

  lemma FittedShape(targets: seq<Target>, width: int, height: int, k: Pattern, fitted: seq<Target>, kept: seq<nat>)
    requires IsFitted(targets, width, height, k, fitted, kept)
    ensures |kept| == |fitted|
    ensures forall a :: 0 <= a < |kept| ==> kept[a] < |targets| && (a > 0 ==> kept[a - 1] < kept[a])
  {
  }

  lemma NothingFitted(width: int, height: int, k: Pattern)
    ensures IsFitted([], width, height, k, [], [])
  {
  }

  /** Thresholds are only lowered. A kept threshold is at least 15 exactly when
      the table's own threshold was: fit_targets never raises one. */
  lemma ThresholdOnlyFalls(t: Target, width: int, height: int, k: Pattern)
    requires !Raises(t, width, height, k) && Kept(t, width, height, k)
    ensures var u := Lowered(t, width, height, k);
            && u.fill <= t.fill
            && u.fill as real <= Reachable(t, width, height, k)
            && (u.fill >= FILL_FLOOR <==> t.fill >= FILL_FLOOR)
            && u == t.(fill := u.fill)
  {
  }

  /** A board that fits covers no more than is reachable before the headroom. */
  lemma ReachableCovers(t: Target, width: int, height: int, k: Pattern, b: Board, percent: real)
    requires IsBoardPattern(k) && Fits(b, k, PixelRect(t, width, height), width, height)
    requires PixelRect(t, width, height).Width() > 0 && PixelRect(t, width, height).Height() > 0
    requires BoardFill(b, k, PixelRect(t, width, height)) >= percent
    ensures !Raises(t, width, height, k) && Reachable(t, width, height, k) >= percent * FILL_HEADROOM
  {
    MaxFillExact(PixelRect(t, width, height), width, height, k);
  }

  /** A table threshold below the floor passes through unchanged wherever a board
      covers 20 percent: the floor drops targets, it does not raise thresholds. */
  lemma LowThresholdSurvives(t: Target, width: int, height: int, k: Pattern, b: Board)
    requires IsBoardPattern(k) && Fits(b, k, PixelRect(t, width, height), width, height)
    requires PixelRect(t, width, height).Width() > 0 && PixelRect(t, width, height).Height() > 0
    requires BoardFill(b, k, PixelRect(t, width, height)) >= 20.0 && t.fill < FILL_FLOOR
    ensures !Raises(t, width, height, k) && Kept(t, width, height, k)
    ensures Lowered(t, width, height, k) == t
  {
    ReachableCovers(t, width, height, k, b, 20.0);
  }

  /** Such a board exists: 9x6 corners of 80 pixels in the whole of a 1000x600 frame. */
  lemma WholeFrameBoard(b: Board, k: Pattern, t: Target)
    requires b == Board(100.0, 100.0, 80.0) && k == Pattern(9, 6) && t == Target(0, 0, 100, 100, 10, 1)
    ensures PixelRect(t, 1000, 600) == Rect(0, 0, 1000, 600)
    ensures Fits(b, k, PixelRect(t, 1000, 600), 1000, 600) && BoardFill(b, k, PixelRect(t, 1000, 600)) >= 40.0
  {
    assert SpanArea(8.0, 5.0, 80.0) == 256000.0;
    assert PixelRect(t, 1000, 600) == Rect(0, 0, 1000, 600) by {
      hide SpanArea;
    }
    assert Percent(256000.0, 600000.0) >= 40.0;
    hide SpanArea, Percent, PixelRect;
  }

  lemma KeptHasRoom(t: Target, width: int, height: int, k: Pattern)
    requires !Raises(t, width, height, k) && Kept(t, width, height, k)
    ensures PixelRect(t, width, height).Width() > 0 && PixelRect(t, width, height).Height() > 0
    ensures MaxFillPct(PixelRect(t, width, height), width, height, k).value > 0.0
    ensures Reachable(t, width, height, k) <= MaxFillPct(PixelRect(t, width, height), width, height, k).value
  {
  }

  /** Every surviving target can be completed: some board held upright lies wholly
      in the frame, passes `contains`, and meets the surviving threshold. */
  lemma SurvivorIsReachable(t: Target, width: int, height: int, k: Pattern)
    returns (b: Board)
    requires IsBoardPattern(k) && !Raises(t, width, height, k) && Kept(t, width, height, k)
    ensures var u := Lowered(t, width, height, k);
            var rect := PixelRect(u, width, height);
            && Fits(b, k, rect, width, height)
            && Contains(rect, BoardCorners(b, k))
            && u.fill as real <= ViewFill(BoardCorners(b, k), k, rect)
  {
    var rect := PixelRect(t, width, height);
    KeptHasRoom(t, width, height, k);
    ThresholdOnlyFalls(t, width, height, k);
    MaxFillExact(rect, width, height, k);
    b :| Fits(b, k, rect, width, height) && BoardFill(b, k, rect) == MaxFillPct(rect, width, height, k).value;
    BoardIsContained(b, k, rect, width, height);
    BoardAsView(b, k, rect);
  }

  /** A dropped target is out of reach of boards held upright: with the headroom taken
      off, every one that fits its box and the frame covers less than the floor. For
      turned boards see `HeldFills.DroppedIsOutOfReachExactly`. */
  lemma DroppedIsOutOfReach(t: Target, width: int, height: int, k: Pattern, b: Board)
    requires IsBoardPattern(k) && !Raises(t, width, height, k) && !Kept(t, width, height, k)
    requires Fits(b, k, PixelRect(t, width, height), width, height)
    ensures PixelRect(t, width, height).Width() > 0 && PixelRect(t, width, height).Height() > 0
    ensures BoardFill(b, k, PixelRect(t, width, height)) * FILL_HEADROOM < FILL_FLOOR as real
  {
    var rect := PixelRect(t, width, height);
    FittingBoxHasRoom(b, k, rect, width, height);
    MaxFillExact(rect, width, height, k);
  }

  lemma FittingBoxHasRoom(b: Board, k: Pattern, rect: Rect, width: int, height: int)
    requires IsBoardPattern(k) && Fits(b, k, rect, width, height)
    ensures rect.Width() > 0 && rect.Height() > 0
  {
    SpanPositive((k.cols - 1) as real, b.square);
    SpanPositive((k.rows - 1) as real, b.square);
  }
}
