// The coarse cutoff grid of threshold_box and its interpolation
// (tools/calibrate_camera.py): tile counts, knots, the extrapolated and clipped
// ring, and the two separable interpolation passes.
module ThresholdGrid {

  const MAX_TILES := 3
  const MIN_SIDE := 8
  const CORNER_BIAS := 12.0

  // ----- tiles -----

  /** Python's round(): to nearest, halves to even. */
  function RoundHalfEven(x: real): int {
    var f := x.Floor;
    if x - f as real < 0.5 then f
    else if x - f as real > 0.5 then f + 1
    else if f % 2 == 0 then f else f + 1
  }

  function ShortCount(short: int, long: int): int
    requires long > 0
  {
    var n := RoundHalfEven(short as real / (long as real / MAX_TILES as real));
    if n < 1 then 1 else n
  }

  /** (nx, ny): the long edge gets three tiles, the short edge what fits. */
  function TileCounts(w: int, h: int): (int, int)
    requires w > 0 && h > 0
  {
    if w >= h then (MAX_TILES, ShortCount(h, w)) else (ShortCount(w, h), MAX_TILES)
  }

  lemma CancelAtMost(r: real, s: real, d: real)
    requires d > 0.0
    ensures r <= s <==> r * d <= s * d
    ensures r < s <==> r * d < s * d
  {
  }

  lemma RatioAtMost(short: int, long: int)
    requires 0 < short <= long
    ensures 0.0 < short as real / (long as real / MAX_TILES as real) <= 3.0
    ensures short as real / (long as real / MAX_TILES as real) == 3.0 * short as real / long as real
  {
    var s, l := short as real, long as real;
    var q := l / 3.0;
    var r := s / q;
    assert r * q == s;
    assert r * l == 3.0 * s;
    CancelAtMost(r, 3.0, l);
    CancelAtMost(0.0, r, l);
    assert 3.0 * s / l == r * l / l;
  }

  /** The short edge, in tiles: its share of the long one, rounded. */
  lemma ShareOfLong(short: int, long: int) returns (r: real)
    requires 0 < short <= long
    ensures r * long as real == 3.0 * short as real && 0.0 < r <= 3.0
    ensures ShortCount(short, long) == if RoundHalfEven(r) < 1 then 1 else RoundHalfEven(r)
  {
    hide RoundHalfEven;
    RatioAtMost(short, long);
    var q := long as real / 3.0;
    r := short as real / q;
    assert r * q == short as real;
  }

  lemma ShareComparedTo(r: real, c: real, short: int, long: int)
    requires long > 0 && r * long as real == 3.0 * short as real
    ensures r < c <==> 3.0 * short as real < c * long as real
    ensures r <= c <==> 3.0 * short as real <= c * long as real
  {
    CancelAtMost(r, c, long as real);
  }

  lemma ShortCountExactly(short: int, long: int)
    requires 0 < short <= long
    ensures ShortCount(short, long) == if 2 * short < long then 1 else if 6 * short <= 5 * long then 2 else 3
  {
    hide ShortCount, RoundHalfEven;
    var r := ShareOfLong(short, long);
    ShareComparedTo(r, 1.5, short, long);
    ShareComparedTo(r, 2.5, short, long);
    RoundedShare(r);
  }

  lemma RoundedShare(r: real)
    requires 0.0 < r <= 3.0
    ensures (if RoundHalfEven(r) < 1 then 1 else RoundHalfEven(r)) == if r < 1.5 then 1 else if r <= 2.5 then 2 else 3
  {
    assert r.Floor in {0, 1, 2, 3};
  }

  /** For every region worth thresholding there are one to three tiles an axis,
      each at least two pixels wide: the program's guard on tile size never
      fires. The long axis gets three; the short one as many square tiles as come
      nearest to its length, two where one or three would come as near. */
  lemma TilesAreUsable(w: int, h: int)
    requires w >= MIN_SIDE && h >= MIN_SIDE
    ensures var (nx, ny) := TileCounts(w, h);
            && 1 <= nx <= 3 && 1 <= ny <= 3
            && w / nx >= 2 && h / ny >= 2
            && (w >= h ==> nx == 3 && ny == if 2 * h < w then 1 else if 6 * h <= 5 * w then 2 else 3)
            && (w < h ==> ny == 3 && nx == if 2 * w < h then 1 else if 6 * w <= 5 * h then 2 else 3)
  {
    if w >= h {
      ShortCountExactly(h, w);
    } else {
      ShortCountExactly(w, h);
    }
  }

  // ----- knots -----

  /** One axis of the grid: `n` tiles of `tile` pixels starting at `origin`. */
  datatype Axis = Axis(origin: int, tile: int, n: int) {
    predicate Valid() {
      tile >= 2 && 1 <= n <= MAX_TILES
    }

    /** Knot 1..n are the tile centres, 0 and n+1 the extrapolated ring. */
    function Knot(k: int): real {
      (origin + (k - 1) * tile) as real + tile as real / 2.0
    }
  }

  ghost predicate IsKnots(a: Axis, knots: seq<real>) {
    |knots| == a.n + 2 && forall k :: 0 <= k < |knots| ==> knots[k] == a.Knot(k)
  }

  method BuildKnots(a: Axis) returns (knots: seq<real>)
    requires a.Valid()
    ensures a.Valid() && IsKnots(a, knots)
  {
    knots := [0.0];
    for j := 0 to a.n
      invariant |knots| == j + 1
      invariant forall k :: 1 <= k <= j ==> knots[k] == a.Knot(k)
    {
      var t := a.origin + j * a.tile;
      knots := knots + [t as real + a.tile as real / 2.0];
    }
    knots := knots + [knots[a.n] + a.tile as real];
    knots := knots[0 := knots[1] - a.tile as real];
    assert a.Knot(0) == a.Knot(1) - a.tile as real;
    assert (a.origin + a.n * a.tile) == (a.origin + (a.n - 1) * a.tile) + a.tile;
  }

  lemma KnotStep(a: Axis, k: int)
    ensures a.Knot(k + 1) == a.Knot(k) + a.tile as real
  {
    assert a.origin + k * a.tile == a.origin + (k - 1) * a.tile + a.tile;
  }

  lemma {:induction false} KnotsIncrease(a: Axis, i: int, j: int)
    requires a.Valid() && i < j
    ensures a.Knot(i) < a.Knot(j)
    decreases j - i
  {
    KnotStep(a, j - 1);
    if i < j - 1 {
      KnotsIncrease(a, i, j - 1);
    }
  }

  /** Despite the floor division that sizes the tiles, every pixel of the region
      lies between the first and the last knot. */
  lemma PixelsBetweenKnots(a: Axis, length: int, v: int)
    requires a.Valid() && a.tile == length / a.n && a.origin <= v < a.origin + length
    ensures a.Knot(0) <= v as real <= a.Knot(a.n + 1)
  {
    assert length < a.n * a.tile + a.n;
    assert a.Knot(a.n + 1) == (a.origin + a.n * a.tile) as real + a.tile as real / 2.0;
    assert v <= a.origin + a.n * a.tile + a.n - 2;
  }

  // ----- the grid of cutoffs -----

  predicate Rectangular<T>(m: seq<seq<T>>, rows: nat, cols: nat) {
    |m| == rows && forall i :: 0 <= i < rows ==> |m[i]| == cols
  }

  type Cutoff = c: int | 5 <= c <= 250 witness 5

  /** One cutoff per tile, ny rows of nx. */
  predicate IsTiles(t: seq<seq<Cutoff>>) {
    |t| >= 1 && |t[0]| >= 1 && Rectangular(t, |t|, |t[0]|)
  }

  function Clip(v: real): real {
    if v < 5.0 then 5.0 else if v > 250.0 then 250.0 else v
  }

  /** The nearest value in 5..250. */
  lemma ClipMeans(v: real)
    ensures 5.0 <= v <= 250.0 ==> Clip(v) == v
    ensures v < 5.0 ==> Clip(v) == 5.0
    ensures v > 250.0 ==> Clip(v) == 250.0
  {
  }

  predicate IsCorner(t: seq<seq<Cutoff>>, i: int, j: int)
    requires IsTiles(t)
  {
    (i == 0 || i == |t| + 1) && (j == 0 || j == |t[0]| + 1)
  }

  /** Linear extrapolation of the tile cutoffs to grid node (i, j), unclipped. */
  function Extrapolated(t: seq<seq<Cutoff>>, i: int, j: int): real
    requires IsTiles(t) && 0 <= i <= |t| + 1 && 0 <= j <= |t[0]| + 1 && !IsCorner(t, i, j)
  {
    var ny, nx := |t|, |t[0]|;
    if 1 <= i <= ny && j == 0 then
      if nx == 1 then t[i - 1][0] as real else 2.0 * t[i - 1][0] as real - t[i - 1][1] as real
    else if 1 <= i <= ny && j == nx + 1 then
      if nx == 1 then t[i - 1][nx - 1] as real else 2.0 * t[i - 1][nx - 1] as real - t[i - 1][nx - 2] as real
    else if 1 <= i <= ny then t[i - 1][j - 1] as real
    else if i == 0 then
      if ny == 1 then t[0][j - 1] as real else 2.0 * t[0][j - 1] as real - t[1][j - 1] as real
    else
      if ny == 1 then t[ny - 1][j - 1] as real else 2.0 * t[ny - 1][j - 1] as real - t[ny - 2][j - 1] as real
  }

  /** The corner's value before the second clip. */
  function Corner(t: seq<seq<Cutoff>>, i: int, j: int): real
    requires IsTiles(t) && 0 <= i <= |t| + 1 && 0 <= j <= |t[0]| + 1 && IsCorner(t, i, j)
  {
    var alongRow := Extrapolated(t, i, if j == 0 then 1 else |t[0]|);
    var alongColumn := Extrapolated(t, if i == 0 then 1 else |t|, j);
    (Clip(alongRow) + Clip(alongColumn)) / 2.0 - CORNER_BIAS
  }

  /** Grid node (i, j): clipped extrapolation, and for the four corners the
      average of the two neighbours on the ring, biased down and clipped. */
  function GridValue(t: seq<seq<Cutoff>>, i: int, j: int): real
    requires IsTiles(t) && 0 <= i <= |t| + 1 && 0 <= j <= |t[0]| + 1
  {
    if IsCorner(t, i, j) then Clip(Corner(t, i, j))
    else Clip(Extrapolated(t, i, j))
  }

  /** Each corner is the mean of its two neighbours on the ring, less 12, in 5..250. */
  lemma CornersMean(t: seq<seq<Cutoff>>)
    requires IsTiles(t)
    ensures var bottom, right := |t| + 1, |t[0]| + 1;
      && GridValue(t, 0, 0) == Clip((GridValue(t, 0, 1) + GridValue(t, 1, 0)) / 2.0 - 12.0)
      && GridValue(t, 0, right) == Clip((GridValue(t, 0, right - 1) + GridValue(t, 1, right)) / 2.0 - 12.0)
      && GridValue(t, bottom, 0) == Clip((GridValue(t, bottom - 1, 0) + GridValue(t, bottom, 1)) / 2.0 - 12.0)
      && GridValue(t, bottom, right)
         == Clip((GridValue(t, bottom, right - 1) + GridValue(t, bottom - 1, right)) / 2.0 - 12.0)
  {
    hide Clip;
  }

  /** The ring goes on as the two outermost tiles of its row or column do, in 5..250, and
      is flat where there is one tile. */
  lemma RingMeans(t: seq<seq<Cutoff>>, i: int, j: int)
    requires IsTiles(t) && 0 <= i < |t| && 0 <= j < |t[0]|
    ensures GridValue(t, i + 1, j + 1) == t[i][j] as real
    ensures var n := |t[0]|;
      if n == 1 then GridValue(t, i + 1, 0) == GridValue(t, i + 1, 2) == t[i][0] as real
      else
        && GridValue(t, i + 1, 0) == Clip(t[i][0] as real + (t[i][0] as real - t[i][1] as real))
        && GridValue(t, i + 1, n + 1) == Clip(t[i][n - 1] as real + (t[i][n - 1] as real - t[i][n - 2] as real))
    ensures var n := |t|;
      if n == 1 then GridValue(t, 0, j + 1) == GridValue(t, 2, j + 1) == t[0][j] as real
      else
        && GridValue(t, 0, j + 1) == Clip(t[0][j] as real + (t[0][j] as real - t[1][j] as real))
        && GridValue(t, n + 1, j + 1) == Clip(t[n - 1][j] as real + (t[n - 1][j] as real - t[n - 2][j] as real))
  {
    ClipMeans(t[i][j] as real);
    ClipMeans(t[i][0] as real);
    ClipMeans(t[0][j] as real);
    hide Clip;
  }

  ghost predicate IsGrid(t: seq<seq<Cutoff>>, q: seq<seq<real>>) {
    && IsTiles(t)
    && Rectangular(q, |t| + 2, |t[0]| + 2)
    && forall i, j :: 0 <= i < |t| + 2 && 0 <= j < |t[0]| + 2 ==> q[i][j] == GridValue(t, i, j)
  }

  // The ring is filled in place: interior, left and right columns, top and
  // bottom rows, a clip, then the corners and a second clip.
  method FillInterior(t: seq<seq<Cutoff>>, q: array2<real>)
    requires IsTiles(t) && q.Length0 == |t| + 2 && q.Length1 == |t[0]| + 2
    modifies q
    ensures forall i, j :: 1 <= i <= |t| && 1 <= j <= |t[0]| ==> q[i, j] == Extrapolated(t, i, j)
  {
    forall i, j | 0 <= i < |t| && 0 <= j < |t[0]| {
      q[i + 1, j + 1] := t[i][j] as real;
    }
  }

  method FillColumns(t: seq<seq<Cutoff>>, q: array2<real>)
    requires IsTiles(t) && q.Length0 == |t| + 2 && q.Length1 == |t[0]| + 2
    requires forall i, j :: 1 <= i <= |t| && 1 <= j <= |t[0]| ==> q[i, j] == Extrapolated(t, i, j)
    modifies q
    ensures forall i, j :: 1 <= i <= |t| && 0 <= j <= |t[0]| + 1 ==> q[i, j] == Extrapolated(t, i, j)
  {
    var ny, nx := |t|, |t[0]|;
    if nx == 1 {
      forall i | 1 <= i < ny + 1 { q[i, 0] := q[i, 1]; }
      forall i | 1 <= i < ny + 1 { q[i, nx + 1] := q[i, nx]; }
    } else {
      forall i | 1 <= i < ny + 1 { q[i, 0] := 2.0 * q[i, 1] - q[i, 2]; }
      forall i | 1 <= i < ny + 1 { q[i, nx + 1] := 2.0 * q[i, nx] - q[i, nx - 1]; }
    }
  }

  method FillRows(t: seq<seq<Cutoff>>, q: array2<real>)
    requires IsTiles(t) && q.Length0 == |t| + 2 && q.Length1 == |t[0]| + 2
    requires forall i, j :: 1 <= i <= |t| && 0 <= j <= |t[0]| + 1 ==> q[i, j] == Extrapolated(t, i, j)
    modifies q
    ensures forall i, j :: 0 <= i <= |t| + 1 && 0 <= j <= |t[0]| + 1 && !IsCorner(t, i, j) ==>
      q[i, j] == Extrapolated(t, i, j)
  {
    var ny, nx := |t|, |t[0]|;
    if ny == 1 {
      forall j | 1 <= j < nx + 1 { q[0, j] := q[1, j]; }
      forall j | 1 <= j < nx + 1 { q[ny + 1, j] := q[ny, j]; }
    } else {
      forall j | 1 <= j < nx + 1 { q[0, j] := 2.0 * q[1, j] - q[2, j]; }
      forall j | 1 <= j < nx + 1 { q[ny + 1, j] := 2.0 * q[ny, j] - q[ny - 1, j]; }
    }
  }

  method ClipAll(q: array2<real>)
    modifies q
    ensures forall i, j :: 0 <= i < q.Length0 && 0 <= j < q.Length1 ==> q[i, j] == Clip(old(q[i, j]))
  {
    forall i, j | 0 <= i < q.Length0 && 0 <= j < q.Length1 {
      q[i, j] := Clip(q[i, j]);
    }
  }

  method BiasCorners(t: seq<seq<Cutoff>>, q: array2<real>)
    requires IsTiles(t) && q.Length0 == |t| + 2 && q.Length1 == |t[0]| + 2
    requires forall i, j :: 0 <= i <= |t| + 1 && 0 <= j <= |t[0]| + 1 && !IsCorner(t, i, j) ==>
      q[i, j] == Clip(Extrapolated(t, i, j))
    modifies q
    ensures forall i, j :: 0 <= i <= |t| + 1 && 0 <= j <= |t[0]| + 1 ==>
      q[i, j] == if IsCorner(t, i, j) then Corner(t, i, j) else Clip(Extrapolated(t, i, j))
  {
    var ny, nx := |t|, |t[0]|;
    q[0, 0] := (q[0, 1] + q[1, 0]) / 2.0 - CORNER_BIAS;
    q[0, nx + 1] := (q[0, nx] + q[1, nx + 1]) / 2.0 - CORNER_BIAS;
    q[ny + 1, 0] := (q[ny, 0] + q[ny + 1, 1]) / 2.0 - CORNER_BIAS;
    q[ny + 1, nx + 1] := (q[ny + 1, nx] + q[ny, nx + 1]) / 2.0 - CORNER_BIAS;
  }

  method BuildGrid(t: seq<seq<Cutoff>>) returns (q: array2<real>)
    requires IsTiles(t)
    ensures fresh(q) && q.Length0 == |t| + 2 && q.Length1 == |t[0]| + 2
    ensures forall i, j :: 0 <= i <= |t| + 1 && 0 <= j <= |t[0]| + 1 ==> q[i, j] == GridValue(t, i, j)
  {
    q := new real[|t| + 2, |t[0]| + 2]((i, j) => 0.0);
    FillInterior(t, q);
    FillColumns(t, q);
    FillRows(t, q);
    ClipAll(q);
    BiasCorners(t, q);
    ClipAll(q);
  }

  // ----- interpolation -----

  ghost predicate Increasing(knots: seq<real>) {
    forall i, j :: 0 <= i < j < |knots| ==> knots[i] < knots[j]
  }

  /** np.searchsorted(knots, v, side="right"): how many knots are at most `v`. */
  function SearchRight(knots: seq<real>, v: real): nat {
    if knots == [] then 0
    else if knots[|knots| - 1] <= v then |knots|
    else SearchRight(knots[..|knots| - 1], v)
  }

  lemma {:induction false} SearchRightLocates(knots: seq<real>, v: real)
    requires Increasing(knots)
    ensures var k := SearchRight(knots, v);
            k <= |knots| && (k > 0 ==> knots[k - 1] <= v) && (k < |knots| ==> v < knots[k])
  {
    if knots != [] && knots[|knots| - 1] > v {
      SearchRightLocates(knots[..|knots| - 1], v);
    }
  }

  /** np.interp: piecewise linear through (knots, values), flat outside. */
  function Interp(v: real, knots: seq<real>, values: seq<real>): real
    requires |knots| == |values| >= 2 && Increasing(knots)
  {
    SearchRightLocates(knots, v);
    var k := SearchRight(knots, v);
    if k == 0 then values[0]
    else if k == |knots| then values[k - 1]
    else values[k - 1] + (values[k] - values[k - 1]) / (knots[k] - knots[k - 1]) * (v - knots[k - 1])
  }

  /** The grid row whose cell holds `v`. */
  function CellOf(v: real, knots: seq<real>): nat
    requires |knots| >= 2
  {
    var k := SearchRight(knots, v) as int - 1;
    if k < 0 then 0 else if k > |knots| - 2 then |knots| - 2 else k
  }

  function Weight(v: real, knots: seq<real>): real
    requires |knots| >= 2 && Increasing(knots)
  {
    var k := CellOf(v, knots);
    (v - knots[k]) / (knots[k + 1] - knots[k])
  }

  function Lerp(a: real, b: real, t: real): real {
    a * (1.0 - t) + b * t
  }

  /** The program's cutoff at (x, y): rows first, then between the two rows. */
  function Surface(qx: seq<real>, qy: seq<real>, q: seq<seq<real>>, x: real, y: real): real
    requires |qx| >= 2 && |qy| >= 2 && Increasing(qx) && Increasing(qy) && Rectangular(q, |qy|, |qx|)
  {
    var k, t := CellOf(y, qy), Weight(y, qy);
    Lerp(Interp(x, qx, q[k]), Interp(x, qx, q[k + 1]), t)
  }

  /** Where `v` sits between knots k and k+1. */
  function Fraction(v: real, knots: seq<real>, k: int): real
    requires 0 <= k < |knots| - 1 && Increasing(knots)
  {
    (v - knots[k]) / (knots[k + 1] - knots[k])
  }

  lemma FractionInUnit(v: real, knots: seq<real>, k: int)
    requires 0 <= k < |knots| - 1 && Increasing(knots) && knots[k] <= v <= knots[k + 1]
    ensures 0.0 <= Fraction(v, knots, k) <= 1.0
    ensures v == knots[k] ==> Fraction(v, knots, k) == 0.0
    ensures v == knots[k + 1] ==> Fraction(v, knots, k) == 1.0
    ensures Fraction(v, knots, k) * (knots[k + 1] - knots[k]) == v - knots[k]
  {
    DivideWithin(v - knots[k], knots[k + 1] - knots[k]);
  }

  lemma DivideWithin(a: real, d: real)
    requires 0.0 <= a <= d && d > 0.0
    ensures 0.0 <= a / d <= 1.0 && a / d * d == a
    ensures a == d ==> a / d == 1.0
  {
    var r := a / d;
    assert r * d == a;
    CancelAtMost(r, 1.0, d);
    CancelAtMost(0.0, r, d);
  }

  lemma ProductNonNegative(a: real, b: real)
    requires a >= 0.0 && b >= 0.0
    ensures a * b >= 0.0
  {
  }

  lemma LerpBetween(a: real, b: real, t: real, lo: real, hi: real)
    requires lo <= a <= hi && lo <= b <= hi && 0.0 <= t <= 1.0
    ensures lo <= Lerp(a, b, t) <= hi
  {
    assert Lerp(a, b, t) - lo == (a - lo) * (1.0 - t) + (b - lo) * t;
    assert hi - Lerp(a, b, t) == (hi - a) * (1.0 - t) + (hi - b) * t;
    ProductNonNegative(a - lo, 1.0 - t);
    ProductNonNegative(b - lo, t);
    ProductNonNegative(hi - a, 1.0 - t);
    ProductNonNegative(hi - b, t);
  }

  /** Between two neighbouring knots, ends included, np.interp is the straight
      line between their values, whichever of the two cells it looked up. */
  lemma InterpOnCell(v: real, knots: seq<real>, values: seq<real>, k: int)
    requires |knots| == |values| >= 2 && Increasing(knots)
    requires 0 <= k < |knots| - 1 && knots[k] <= v <= knots[k + 1]
    ensures Interp(v, knots, values) == Lerp(values[k], values[k + 1], Fraction(v, knots, k))
  {
    FractionInUnit(v, knots, k);
    SearchRightLocates(knots, v);
    var s := SearchRight(knots, v);
    if v == knots[k + 1] {
      assert s == k + 2;
    } else {
      assert s == k + 1;
      var d, rise := knots[k + 1] - knots[k], values[k + 1] - values[k];
      SlopeTimesRun(rise, d, v - knots[k]);
    }
  }

  lemma SlopeTimesRun(rise: real, d: real, run: real)
    requires d > 0.0
    ensures rise / d * run == rise * (run / d)
  {
  }

  function Bilinear(qx: seq<real>, qy: seq<real>, q: seq<seq<real>>, i: int, j: int, x: real, y: real): real
    requires Increasing(qx) && Increasing(qy) && Rectangular(q, |qy|, |qx|)
    requires 0 <= i < |qy| - 1 && 0 <= j < |qx| - 1
  {
    var s, t := Fraction(x, qx, j), Fraction(y, qy, i);
    Lerp(Lerp(q[i][j], q[i][j + 1], s), Lerp(q[i + 1][j], q[i + 1][j + 1], s), t)
  }

  /** The row cell looked up is this one, or the next when `y` is on the seam. */
  lemma WeightInCell(y: real, qy: seq<real>, i: int)
    requires |qy| >= 2 && Increasing(qy) && 0 <= i < |qy| - 1 && qy[i] <= y <= qy[i + 1]
    ensures CellOf(y, qy) == i || (CellOf(y, qy) == i + 1 && y == qy[i + 1] && Weight(y, qy) == 0.0)
    ensures CellOf(y, qy) == i ==> Weight(y, qy) == Fraction(y, qy, i)
    ensures CellOf(y, qy) + 1 < |qy|
  {
    hide Fraction, Weight;
    SearchRightLocates(qy, y);
    var k := CellOf(y, qy);
    WeightIsFraction(y, qy);
    if k != i {
      FractionInUnit(y, qy, k);
    }
  }

  lemma WeightIsFraction(y: real, qy: seq<real>)
    requires |qy| >= 2 && Increasing(qy)
    ensures CellOf(y, qy) + 1 < |qy| && Weight(y, qy) == Fraction(y, qy, CellOf(y, qy))
  {
  }

  lemma LerpEnds(a: real, b: real)
    ensures Lerp(a, b, 0.0) == a && Lerp(a, b, 1.0) == b
  {
  }

  /** On each closed grid cell the two-pass surface is the bilinear blend of the
      cell's four nodes. A point on a seam belongs to both its cells, so the
      surface agrees from both sides. */
  lemma SurfaceOnCell(qx: seq<real>, qy: seq<real>, q: seq<seq<real>>, i: int, j: int, x: real, y: real)
    requires |qx| >= 2 && |qy| >= 2 && Increasing(qx) && Increasing(qy) && Rectangular(q, |qy|, |qx|)
    requires 0 <= i < |qy| - 1 && 0 <= j < |qx| - 1
    requires qx[j] <= x <= qx[j + 1] && qy[i] <= y <= qy[i + 1]
    ensures Surface(qx, qy, q, x, y) == Bilinear(qx, qy, q, i, j, x, y)
  {
    hide Interp, Lerp, CellOf, Weight, Fraction;
    InterpOnCell(x, qx, q[i], j);
    InterpOnCell(x, qx, q[i + 1], j);
    WeightInCell(y, qy, i);
    FractionInUnit(y, qy, i);
    var k := CellOf(y, qy);
    assert Bilinear(qx, qy, q, i, j, x, y) == Lerp(Interp(x, qx, q[i]), Interp(x, qx, q[i + 1]), Fraction(y, qy, i));
    if k == i {
      assert Surface(qx, qy, q, x, y) == Lerp(Interp(x, qx, q[i]), Interp(x, qx, q[i + 1]), Fraction(y, qy, i));
    } else {
      LerpEnds(Interp(x, qx, q[i + 1]), Interp(x, qx, q[i + 2]));
      LerpEnds(Interp(x, qx, q[i]), Interp(x, qx, q[i + 1]));
      assert Surface(qx, qy, q, x, y) == Interp(x, qx, q[i + 1]);
      assert Fraction(y, qy, i) == 1.0;
      assert Bilinear(qx, qy, q, i, j, x, y) == Interp(x, qx, q[i + 1]);
    }
  }

  /** At grid node (i, j) the surface is exactly the node's value; for an interior
      node that is the tile's cutoff at the tile's centre. */
  lemma SurfaceAtNode(qx: seq<real>, qy: seq<real>, q: seq<seq<real>>, i: int, j: int)
    requires |qx| >= 2 && |qy| >= 2 && Increasing(qx) && Increasing(qy) && Rectangular(q, |qy|, |qx|)
    requires 0 <= i < |qy| && 0 <= j < |qx|
    ensures Surface(qx, qy, q, qx[j], qy[i]) == q[i][j]
  {
    var ci := if i == 0 then 0 else i - 1;
    var cj := if j == 0 then 0 else j - 1;
    SurfaceOnCell(qx, qy, q, ci, cj, qx[j], qy[i]);
    FractionInUnit(qx[j], qx, cj);
    FractionInUnit(qy[i], qy, ci);
  }

  lemma {:induction false} FindCell(v: real, knots: seq<real>) returns (k: int)
    requires |knots| >= 2 && Increasing(knots) && knots[0] <= v <= knots[|knots| - 1]
    ensures 0 <= k < |knots| - 1 && knots[k] <= v <= knots[k + 1]
  {
    SearchRightLocates(knots, v);
    k := CellOf(v, knots);
  }

  /** Every interpolated cutoff inside the grid stays within bounds of its nodes. */
  lemma SurfaceWithin(qx: seq<real>, qy: seq<real>, q: seq<seq<real>>, x: real, y: real, lo: real, hi: real)
    requires |qx| >= 2 && |qy| >= 2 && Increasing(qx) && Increasing(qy) && Rectangular(q, |qy|, |qx|)
    requires qx[0] <= x <= qx[|qx| - 1] && qy[0] <= y <= qy[|qy| - 1]
    requires forall i, j :: 0 <= i < |qy| && 0 <= j < |qx| ==> lo <= q[i][j] <= hi
    ensures 0.0 <= Weight(y, qy) <= 1.0
    ensures lo <= Surface(qx, qy, q, x, y) <= hi
  {
    var i := FindCell(y, qy);
    var j := FindCell(x, qx);
    SurfaceOnCell(qx, qy, q, i, j, x, y);
    FractionInUnit(x, qx, j);
    FractionInUnit(y, qy, i);
    var s := Fraction(x, qx, j);
    LerpBetween(q[i][j], q[i][j + 1], s, lo, hi);
    LerpBetween(q[i + 1][j], q[i + 1][j + 1], s, lo, hi);
    LerpBetween(Lerp(q[i][j], q[i][j + 1], s), Lerp(q[i + 1][j], q[i + 1][j + 1], s), Fraction(y, qy, i), lo, hi);
    SearchRightLocates(qy, y);
    FractionInUnit(y, qy, CellOf(y, qy));
  }

  lemma KnotsAreIncreasing(a: Axis, knots: seq<real>)
    requires a.Valid() && IsKnots(a, knots)
    ensures Increasing(knots)
  {
    forall i, j | 0 <= i < j < |knots| ensures knots[i] < knots[j] {
      KnotsIncrease(a, i, j);
    }
  }

  // ----- affine tile fields -----

  function Affine(a: real, b: real, c: real, x: real, y: real): real {
    a + b * x + c * y
  }

  /** The tile cutoffs follow an affine field at the tile centres. */
  ghost predicate TilesAffine(t: seq<seq<Cutoff>>, ax: Axis, ay: Axis, a: real, b: real, c: real)
    requires IsTiles(t)
  {
    forall i, j :: 1 <= i <= |t| && 1 <= j <= |t[0]| ==>
      t[i - 1][j - 1] as real == Affine(a, b, c, ax.Knot(j), ay.Knot(i))
  }

  /** No node of the ring, corners apart, had to be clipped. */
  ghost predicate RingUnclipped(t: seq<seq<Cutoff>>)
    requires IsTiles(t)
  {
    forall i, j :: 0 <= i <= |t| + 1 && 0 <= j <= |t[0]| + 1 && !IsCorner(t, i, j) ==>
      5.0 <= Extrapolated(t, i, j) <= 250.0
  }

  lemma ExtrapolationContinuesAffine(t: seq<seq<Cutoff>>, ax: Axis, ay: Axis, a: real, b: real, c: real, i: int, j: int)
    requires IsTiles(t) && |t| >= 2 && |t[0]| >= 2
    requires ax.n == |t[0]| && ay.n == |t|
    requires TilesAffine(t, ax, ay, a, b, c)
    requires 0 <= i <= |t| + 1 && 0 <= j <= |t[0]| + 1 && !IsCorner(t, i, j)
    ensures Extrapolated(t, i, j) == Affine(a, b, c, ax.Knot(j), ay.Knot(i))
  {
    var ny, nx := |t|, |t[0]|;
    if 1 <= i <= ny && j == 0 {
      AffineStep(a, b, c, ax, 1, ay.Knot(i));
      assert t[i - 1][1 - 1] as real == Affine(a, b, c, ax.Knot(1), ay.Knot(i));
      assert t[i - 1][2 - 1] as real == Affine(a, b, c, ax.Knot(2), ay.Knot(i));
    } else if 1 <= i <= ny && j == nx + 1 {
      AffineStep(a, b, c, ax, nx, ay.Knot(i));
      assert t[i - 1][nx - 1] as real == Affine(a, b, c, ax.Knot(nx), ay.Knot(i));
      assert t[i - 1][nx - 1 - 1] as real == Affine(a, b, c, ax.Knot(nx - 1), ay.Knot(i));
    } else if 1 <= i <= ny {
      assert t[i - 1][j - 1] as real == Affine(a, b, c, ax.Knot(j), ay.Knot(i));
    } else if i == 0 {
      AffineStep(a, c, b, ay, 1, ax.Knot(j));
      assert t[1 - 1][j - 1] as real == Affine(a, b, c, ax.Knot(j), ay.Knot(1));
      assert t[2 - 1][j - 1] as real == Affine(a, b, c, ax.Knot(j), ay.Knot(2));
    } else {
      AffineStep(a, c, b, ay, ny, ax.Knot(j));
      assert t[ny - 1][j - 1] as real == Affine(a, b, c, ax.Knot(j), ay.Knot(ny));
      assert t[ny - 1 - 1][j - 1] as real == Affine(a, b, c, ax.Knot(j), ay.Knot(ny - 1));
    }
  }

  /** Knots are evenly spaced, so an affine value is the mean of its neighbours'. */
  lemma AffineStep(a: real, b: real, c: real, axis: Axis, k: int, other: real)
    ensures 2.0 * Affine(a, b, c, axis.Knot(k), other)
         == Affine(a, b, c, axis.Knot(k - 1), other) + Affine(a, b, c, axis.Knot(k + 1), other)
  {
    KnotStep(axis, k);
    KnotStep(axis, k - 1);
    assert b * axis.Knot(k + 1) == b * axis.Knot(k) + b * axis.tile as real;
    assert b * axis.Knot(k) == b * axis.Knot(k - 1) + b * axis.tile as real;
  }

  lemma GridContinuesAffine(t: seq<seq<Cutoff>>, ax: Axis, ay: Axis, a: real, b: real, c: real, i: int, j: int)
    requires IsTiles(t) && |t| >= 2 && |t[0]| >= 2
    requires ax.n == |t[0]| && ay.n == |t|
    requires TilesAffine(t, ax, ay, a, b, c) && RingUnclipped(t)
    requires 0 <= i <= |t| + 1 && 0 <= j <= |t[0]| + 1 && !IsCorner(t, i, j)
    ensures GridValue(t, i, j) == Affine(a, b, c, ax.Knot(j), ay.Knot(i))
  {
    ExtrapolationContinuesAffine(t, ax, ay, a, b, c, i, j);
  }

  lemma LerpOfAffine(u: real, v: real, lo: real, hi: real, x: real)
    requires lo < hi
    ensures Lerp(u + v * lo, u + v * hi, (x - lo) / (hi - lo)) == u + v * x
  {
    var t := (x - lo) / (hi - lo);
    assert t * (hi - lo) == x - lo;
    assert Lerp(u + v * lo, u + v * hi, t) == u + v * lo + v * (t * (hi - lo)) by {
      assert Lerp(u + v * lo, u + v * hi, t) == (u + v * lo) + ((u + v * hi) - (u + v * lo)) * t;
      assert (u + v * hi) - (u + v * lo) == v * (hi - lo);
    }
  }

  /** A cell whose four nodes follow an affine field is that field. */
  lemma BilinearOfAffine(qx: seq<real>, qy: seq<real>, q: seq<seq<real>>,
                         a: real, b: real, c: real, i: int, j: int, x: real, y: real)
    requires Increasing(qx) && Increasing(qy) && Rectangular(q, |qy|, |qx|)
    requires 0 <= i < |qy| - 1 && 0 <= j < |qx| - 1
    requires q[i][j] == Affine(a, b, c, qx[j], qy[i]) && q[i][j + 1] == Affine(a, b, c, qx[j + 1], qy[i])
    requires q[i + 1][j] == Affine(a, b, c, qx[j], qy[i + 1])
    requires q[i + 1][j + 1] == Affine(a, b, c, qx[j + 1], qy[i + 1])
    ensures Bilinear(qx, qy, q, i, j, x, y) == Affine(a, b, c, x, y)
  {
    LerpOfAffine(a + c * qy[i], b, qx[j], qx[j + 1], x);
    LerpOfAffine(a + c * qy[i + 1], b, qx[j], qx[j + 1], x);
    LerpOfAffine(a + b * x, c, qy[i], qy[i + 1], y);
  }

  /** With at least two tiles an axis and nothing clipped, the surface reproduces
      an affine illumination field exactly everywhere outside the four biased
      corner cells. */
  lemma AffineFieldReproduced(t: seq<seq<Cutoff>>, ax: Axis, ay: Axis, qx: seq<real>, qy: seq<real>, q: seq<seq<real>>,
                              a: real, b: real, c: real, i: int, j: int, x: real, y: real)
    requires IsTiles(t) && |t| >= 2 && |t[0]| >= 2
    requires ax.Valid() && ay.Valid() && ax.n == |t[0]| && ay.n == |t|
    requires IsKnots(ax, qx) && IsKnots(ay, qy) && IsGrid(t, q)
    requires TilesAffine(t, ax, ay, a, b, c) && RingUnclipped(t)
    requires 0 <= i <= |t| && 0 <= j <= |t[0]| && !((i == 0 || i == |t|) && (j == 0 || j == |t[0]|))
    requires qx[j] <= x <= qx[j + 1] && qy[i] <= y <= qy[i + 1]
    ensures Increasing(qx) && Increasing(qy)
    ensures Surface(qx, qy, q, x, y) == Affine(a, b, c, x, y)
  {
    hide Surface, Bilinear, Affine, GridValue, RingUnclipped, TilesAffine, IsTiles, Axis.Knot, Axis.Valid;
    KnotsAreIncreasing(ax, qx);
    KnotsAreIncreasing(ay, qy);
    SurfaceOnCell(qx, qy, q, i, j, x, y);
    GridContinuesAffine(t, ax, ay, a, b, c, i, j);
    GridContinuesAffine(t, ax, ay, a, b, c, i, j + 1);
    GridContinuesAffine(t, ax, ay, a, b, c, i + 1, j);
    GridContinuesAffine(t, ax, ay, a, b, c, i + 1, j + 1);
    BilinearOfAffine(qx, qy, q, a, b, c, i, j, x, y);
  }
}
