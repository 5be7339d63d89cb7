// threshold_box (tools/calibrate_camera.py): the pixels of one region compared with
// the interpolated cutoff surface, all others untouched.
module ThresholdBox {
  import Isodata
  import opened ThresholdGrid

  type Pixel = Isodata.Pixel

  datatype RawImage = Image(height: nat, width: nat, px: seq<seq<Pixel>>)

  predicate WellShaped(img: RawImage) {
    Rectangular(img.px, img.height, img.width)
  }

  type Image = img: RawImage | WellShaped(img) witness Image(0, 0, [])

  /** A rectangle of pixels: columns [x, x+w), rows [y, y+h). */
  datatype Box = Box(x: int, y: int, w: int, h: int) {
    predicate Holds(r: int, c: int) {
      y <= r < y + h && x <= c < x + w
    }

    predicate OnBorder(r: int, c: int) {
      Holds(r, c) && (r == y || r == y + h - 1 || c == x || c == x + w - 1)
    }

    predicate InsideFrame(width: int, height: int) {
      0 <= x && 0 <= y && x + w <= width && y + h <= height
    }
  }

  function Min(a: int, b: int): int { if a <= b then a else b }

  function Max(a: int, b: int): int { if a >= b then a else b }

  /** The part of `box` that lies in a width x height frame. */
  function ClipToFrame(box: Box, width: int, height: int): Box {
    var x2, y2 := Min(box.x + box.w, width), Min(box.y + box.h, height);
    var x, y := Max(box.x, 0), Max(box.y, 0);
    Box(x, y, x2 - x, y2 - y)
  }

  /** Clipping keeps exactly the pixels of the box that are in the frame. */
  lemma ClipKeepsFramePixels(box: Box, width: int, height: int, r: int, c: int)
    ensures ClipToFrame(box, width, height).Holds(r, c) <==> box.Holds(r, c) && 0 <= r < height && 0 <= c < width
  {
  }

  predicate Usable(region: Box) {
    region.w >= MIN_SIDE && region.h >= MIN_SIDE
  }

  // ----- the cutoff surface of a region -----

  function Ravel(img: Image, ty: int, th: nat, tx: int, tw: nat): seq<Pixel>
    requires 0 <= ty && ty + th <= img.height && 0 <= tx && tx + tw <= img.width
    decreases th
  {
    if th == 0 then [] else Ravel(img, ty, th - 1, tx, tw) + img.px[ty + th - 1][tx..tx + tw]
  }

  /** Ravel lists the tile's pixels row by row, and nothing else. */
  lemma {:induction false} RavelAt(img: Image, ty: int, th: nat, tx: int, tw: nat, i: int, j: int)
    requires 0 <= ty && ty + th <= img.height && 0 <= tx && tx + tw <= img.width
    requires 0 <= i < th && 0 <= j < tw
    ensures |Ravel(img, ty, th, tx, tw)| == th * tw && 0 <= i * tw + j < th * tw
    ensures Ravel(img, ty, th, tx, tw)[i * tw + j] == img.px[ty + i][tx + j]
    decreases th
  {
    RavelLength(img, ty, th - 1, tx, tw);
    RavelLength(img, ty, th, tx, tw);
    assert th * tw == (th - 1) * tw + tw;
    if i < th - 1 {
      RavelAt(img, ty, th - 1, tx, tw, i, j);
    }
  }

  lemma {:induction false} RavelLength(img: Image, ty: int, th: nat, tx: int, tw: nat)
    requires 0 <= ty && ty + th <= img.height && 0 <= tx && tx + tw <= img.width
    ensures |Ravel(img, ty, th, tx, tw)| == th * tw
    decreases th
  {
    if th > 0 {
      RavelLength(img, ty, th - 1, tx, tw);
      assert th * tw == (th - 1) * tw + tw;
    }
  }

  function AxisX(region: Box): Axis
    requires Usable(region)
  {
    var nx := TileCounts(region.w, region.h).0;
    TilesAreUsable(region.w, region.h);
    Axis(region.x, region.w / nx, nx)
  }

  function AxisY(region: Box): Axis
    requires Usable(region)
  {
    var ny := TileCounts(region.w, region.h).1;
    TilesAreUsable(region.w, region.h);
    Axis(region.y, region.h / ny, ny)
  }

  lemma AxesFit(region: Box)
    requires Usable(region)
    ensures AxisX(region).Valid() && AxisY(region).Valid()
    ensures AxisX(region).origin == region.x && AxisY(region).origin == region.y
    ensures AxisX(region).tile * AxisX(region).n <= region.w
    ensures AxisY(region).tile * AxisY(region).n <= region.h
  {
    TilesAreUsable(region.w, region.h);
  }

  lemma TileFits(a: Axis, length: int, k: int)
    requires a.Valid() && a.tile * a.n <= length && 0 <= k < a.n
    ensures a.origin <= a.origin + k * a.tile && a.origin + k * a.tile + a.tile <= a.origin + length
  {
    assert (k + 1) * a.tile <= a.n * a.tile;
  }

  /** The isodata cutoff of tile (i, j) of the region. */
  function TileCutoff(img: Image, region: Box, adjustment: int, i: int, j: int): Cutoff
    requires Usable(region) && region.InsideFrame(img.width, img.height)
    requires 0 <= i < AxisY(region).n && 0 <= j < AxisX(region).n
  {
    AxesFit(region);
    var ax, ay := AxisX(region), AxisY(region);
    TileFits(ax, region.w, j);
    TileFits(ay, region.h, i);
    Isodata.Cutoff(Ravel(img, ay.origin + i * ay.tile, ay.tile, ax.origin + j * ax.tile, ax.tile), adjustment)
  }

  function TileCutoffs(img: Image, region: Box, adjustment: int): (t: seq<seq<Cutoff>>)
    requires Usable(region) && region.InsideFrame(img.width, img.height)
    ensures IsTiles(t) && |t| == AxisY(region).n && |t[0]| == AxisX(region).n
    ensures forall i, j :: 0 <= i < |t| && 0 <= j < |t[0]| ==> t[i][j] == TileCutoff(img, region, adjustment, i, j)
  {
    AxesFit(region);
    var ax, ay := AxisX(region), AxisY(region);
    seq(ay.n, i requires 0 <= i < ay.n =>
      seq(ax.n, j requires 0 <= j < ax.n => TileCutoff(img, region, adjustment, i, j)))
  }

  function Knots(a: Axis): (knots: seq<real>)
    requires a.Valid()
    ensures IsKnots(a, knots) && Increasing(knots)
  {
    var knots := seq(a.n + 2, k => a.Knot(k));
    KnotsAreIncreasing(a, knots);
    knots
  }

  function Grid(t: seq<seq<Cutoff>>): (q: seq<seq<real>>)
    requires IsTiles(t)
    ensures IsGrid(t, q)
  {
    seq(|t| + 2, i requires 0 <= i < |t| + 2 =>
      seq(|t[0]| + 2, j requires 0 <= j < |t[0]| + 2 => GridValue(t, i, j)))
  }

  /** The interpolated cutoff at column x, row y for a grid of tile cutoffs. */
  function CutoffSurface(t: seq<seq<Cutoff>>, ax: Axis, ay: Axis, x: int, y: int): real
    requires ax.Valid() && ay.Valid() && IsTiles(t) && |t| == ay.n && |t[0]| == ax.n
  {
    Surface(Knots(ax), Knots(ay), Grid(t), x as real, y as real)
  }

  /** The cutoff the region's pixel at row r, column c is compared with. */
  function CutoffAt(img: Image, region: Box, adjustment: int, r: int, c: int): real
    requires Usable(region) && region.InsideFrame(img.width, img.height)
  {
    AxesFit(region);
    CutoffSurface(TileCutoffs(img, region, adjustment), AxisX(region), AxisY(region), c, r)
  }

  /** For every frame and region, every pixel of the region has a cutoff in
      [5, 250], interpolated with weights in [0, 1]. */
  lemma CutoffAlwaysInRange(img: Image, region: Box, adjustment: int, r: int, c: int)
    requires Usable(region) && region.InsideFrame(img.width, img.height) && region.Holds(r, c)
    ensures AxisX(region).Valid() && AxisY(region).Valid()
    ensures 0.0 <= Weight(r as real, Knots(AxisY(region))) <= 1.0
    ensures 5.0 <= CutoffAt(img, region, adjustment, r, c) <= 250.0
  {
    AxesFit(region);
    var ax, ay := AxisX(region), AxisY(region);
    PixelsBetweenKnots(ax, region.w, c);
    PixelsBetweenKnots(ay, region.h, r);
    SurfaceWithin(Knots(ax), Knots(ay), Grid(TileCutoffs(img, region, adjustment)), c as real, r as real, 5.0, 250.0);
  }

  /** At the centre of a tile the surface is exactly that tile's own cutoff. */
  lemma CutoffAtTileCentre(img: Image, region: Box, adjustment: int, i: int, j: int)
    requires Usable(region) && region.InsideFrame(img.width, img.height)
    requires 0 <= i < AxisY(region).n && 0 <= j < AxisX(region).n
    ensures AxisX(region).Valid() && AxisY(region).Valid()
    ensures Surface(Knots(AxisX(region)), Knots(AxisY(region)), Grid(TileCutoffs(img, region, adjustment)),
                    AxisX(region).Knot(j + 1), AxisY(region).Knot(i + 1))
         == TileCutoff(img, region, adjustment, i, j) as real
  {
    hide TileCutoff, GridValue, Surface, Axis.Knot, Axis.Valid;
    AxesFit(region);
    var t := TileCutoffs(img, region, adjustment);
    SurfaceAtNode(Knots(AxisX(region)), Knots(AxisY(region)), Grid(t), i + 1, j + 1);
    assert Grid(t)[i + 1][j + 1] == GridValue(t, i + 1, j + 1);
    InteriorNode(t, i, j);
  }

  /** The sequence lists the pixels of a rectangle, row by row. */
  predicate Lists(img: Image, ty: int, th: nat, tx: int, tw: nat, s: seq<Pixel>)
    requires 0 <= ty && ty + th <= img.height && 0 <= tx && tx + tw <= img.width
  {
    |s| == th * tw && forall u, v :: 0 <= u < th && 0 <= v < tw ==> Shows(img, ty, tx, tw, s, u, v)
  }

  /** The pixel in row u and column v of a rectangle stands where its row puts it. */
  predicate Shows(img: Image, ty: int, tx: int, tw: nat, s: seq<Pixel>, u: int, v: int)
    requires 0 <= ty + u < img.height && 0 <= tx + v < img.width
  {
    0 <= u * tw + v < |s| && s[u * tw + v] == img.px[ty + u][tx + v]
  }

  lemma FewerRows(u: int, th: int, tw: int)
    requires tw > 0
    ensures u < th <==> u * tw < th * tw
  {
  }

  lemma RowAndColumn(i: int, th: nat, tw: nat) returns (u: int, v: int)
    requires 0 <= i < th * tw
    ensures 0 <= u < th && 0 <= v < tw && i == u * tw + v
  {
    RowsHaveColumns(th, tw);
    u, v := i / tw, i % tw;
    FewerRows(u, th, tw);
  }

  lemma RowsHaveColumns(th: nat, tw: nat)
    requires th * tw > 0
    ensures tw > 0
  {
  }

  lemma ListLength(img: Image, ty: int, th: nat, tx: int, tw: nat, s: seq<Pixel>)
    requires 0 <= ty && ty + th <= img.height && 0 <= tx && tx + tw <= img.width && Lists(img, ty, th, tx, tw, s)
    ensures |s| == th * tw
  {
  }

  lemma ListsRavel(img: Image, ty: int, th: nat, tx: int, tw: nat, s: seq<Pixel>)
    requires 0 <= ty && ty + th <= img.height && 0 <= tx && tx + tw <= img.width && Lists(img, ty, th, tx, tw, s)
    ensures s == Ravel(img, ty, th, tx, tw)
  {
    hide Ravel, Lists;
    RavelLength(img, ty, th, tx, tw);
    ListLength(img, ty, th, tx, tw, s);
    forall i | 0 <= i < |s| ensures s[i] == Ravel(img, ty, th, tx, tw)[i] {
      PixelOfList(img, ty, th, tx, tw, s, i);
    }
  }

  lemma PixelOfList(img: Image, ty: int, th: nat, tx: int, tw: nat, s: seq<Pixel>, i: nat)
    requires 0 <= ty && ty + th <= img.height && 0 <= tx && tx + tw <= img.width && Lists(img, ty, th, tx, tw, s)
    requires i < |s|
    ensures |Ravel(img, ty, th, tx, tw)| == |s| && s[i] == Ravel(img, ty, th, tx, tw)[i]
  {
    hide Ravel, Lists;
    RavelLength(img, ty, th, tx, tw);
    ListLength(img, ty, th, tx, tw, s);
    var u, v := RowAndColumn(i, th, tw);
    RavelAt(img, ty, th, tx, tw, u, v);
    ListAt(img, ty, th, tx, tw, s, u, v);
    SamePlace(s, Ravel(img, ty, th, tx, tw), u * tw + v, i);
  }

  lemma SamePlace(s: seq<Pixel>, t: seq<Pixel>, k: int, i: int)
    requires k == i && 0 <= i < |s| == |t| && s[k] == t[k]
    ensures s[i] == t[i]
  {
  }

  lemma ListAt(img: Image, ty: int, th: nat, tx: int, tw: nat, s: seq<Pixel>, u: int, v: int)
    requires 0 <= ty && ty + th <= img.height && 0 <= tx && tx + tw <= img.width && Lists(img, ty, th, tx, tw, s)
    requires 0 <= u < th && 0 <= v < tw
    ensures 0 <= u * tw + v < |s| && s[u * tw + v] == img.px[ty + u][tx + v]
  {
    assert Shows(img, ty, tx, tw, s, u, v);
  }

  /** Tile (i, j) of the region: its first row and column, and its size, in pixels. */
  datatype Tile = Tile(top: int, left: int, th: nat, tw: nat)

  function TileAt(region: Box, i: int, j: int): Tile
    requires Usable(region)
  {
    TilesAreUsable(region.w, region.h);
    var (nx, ny) := TileCounts(region.w, region.h);
    var th, tw := region.h / ny, region.w / nx;
    Tile(region.y + i * th, region.x + j * tw, th, tw)
  }

  lemma TileInFrame(img: Image, region: Box, i: int, j: int)
    requires Usable(region) && region.InsideFrame(img.width, img.height)
    requires var (nx, ny) := TileCounts(region.w, region.h); 0 <= i < ny && 0 <= j < nx
    ensures var t := TileAt(region, i, j);
            && 0 <= t.top && t.top + t.th <= img.height && 0 <= t.left && t.left + t.tw <= img.width
            && t.th >= 2 && t.tw >= 2
    ensures i < AxisY(region).n && j < AxisX(region).n
  {
    AxesFit(region);
    TileFits(AxisX(region), region.w, j);
    TileFits(AxisY(region), region.h, i);
  }

  /** The cutoff of a tile is the isodata cutoff of the pixels that are its own. */
  lemma TileCutoffOfOwnPixels(img: Image, region: Box, adjustment: int, i: int, j: int, s: seq<Pixel>)
    requires Usable(region) && region.InsideFrame(img.width, img.height)
    requires var (nx, ny) := TileCounts(region.w, region.h); 0 <= i < ny && 0 <= j < nx
    requires var t := TileAt(region, i, j);
             && 0 <= t.top && t.top + t.th <= img.height && 0 <= t.left && t.left + t.tw <= img.width
             && Lists(img, t.top, t.th, t.left, t.tw, s)
    ensures i < AxisY(region).n && j < AxisX(region).n
    ensures TileCutoff(img, region, adjustment, i, j) == Isodata.Cutoff(s, adjustment)
  {
    hide Isodata.Cutoff, Lists, Ravel;
    TileInFrame(img, region, i, j);
    var t := TileAt(region, i, j);
    ListsRavel(img, t.top, t.th, t.left, t.tw, s);
  }

  lemma InteriorNode(t: seq<seq<Cutoff>>, i: int, j: int)
    requires IsTiles(t) && 0 <= i < |t| && 0 <= j < |t[0]|
    ensures GridValue(t, i + 1, j + 1) == t[i][j] as real
  {
  }

  predicate OwnPixels(img: Image, region: Box, i: int, j: int, s: seq<Pixel>)
    requires Usable(region) && region.InsideFrame(img.width, img.height)
  {
    && 0 <= i < TileCounts(region.w, region.h).1 && 0 <= j < TileCounts(region.w, region.h).0
    && var t := TileAt(region, i, j);
       && 0 <= t.top && t.top + t.th <= img.height && 0 <= t.left && t.left + t.tw <= img.width
       && Lists(img, t.top, t.th, t.left, t.tw, s)
  }

  lemma KnotOfTile(region: Box, i: int, j: int)
    requires Usable(region)
    ensures AxisX(region).Valid() && AxisY(region).Valid()
    ensures var t := TileAt(region, i, j);
            && AxisX(region).tile == t.tw && AxisY(region).tile == t.th
            && AxisX(region).Knot(j + 1) == t.left as real + t.tw as real / 2.0
            && AxisY(region).Knot(i + 1) == t.top as real + t.th as real / 2.0
    ensures AxisX(region).n == TileCounts(region.w, region.h).0 && AxisY(region).n == TileCounts(region.w, region.h).1
  {
    AxesFit(region);
  }

  /** At the centre of a tile the surface is the isodata cutoff of the tile's own pixels. */
  lemma CutoffAtCentreOfOwnPixels(img: Image, region: Box, adjustment: int, i: int, j: int, s: seq<Pixel>)
    requires Usable(region) && region.InsideFrame(img.width, img.height) && OwnPixels(img, region, i, j, s)
    ensures AxisX(region).Valid() && AxisY(region).Valid()
    ensures var t := TileAt(region, i, j);
            Surface(Knots(AxisX(region)), Knots(AxisY(region)), Grid(TileCutoffs(img, region, adjustment)),
                    t.left as real + t.tw as real / 2.0, t.top as real + t.th as real / 2.0)
              == Isodata.Cutoff(s, adjustment) as real
  {
    hide TileCutoff, TileCutoffs, Knots, Grid, Surface, Axis.Knot, AxisX, AxisY, TileAt, Isodata.Cutoff, TileCounts,
      Lists;
    KnotOfTile(region, i, j);
    TileCutoffOfOwnPixels(img, region, adjustment, i, j, s);
    CutoffAtTileCentre(img, region, adjustment, i, j);
  }

  /** Linear blend of two cutoffs, `a` of `d` pixels from the first to the second. */
  function Between(c: real, c': real, a: real, d: real): real {
    c * (d - a) + c' * a
  }

  lemma LerpBetweenPixels(c: real, c': real, a: real, d: real, f: real)
    requires f * d == a
    ensures Lerp(c, c', f) * d == Between(c, c', a, d)
  {
    assert (c * (1.0 - f) + c' * f) * d == c * (d - f * d) + c' * (f * d);
  }

  lemma BlendOfBlends(top: real, bottom: real, u: real, v: real, b: real, tw: real, th: real, g: real)
    requires top * tw == u && bottom * tw == v && g * th == b
    ensures Lerp(top, bottom, g) * (tw * th) == Between(u, v, b, th)
  {
    LerpBetweenPixels(top, bottom, b, th, g);
    assert Between(u, v, b, th) == (top * (th - b) + bottom * b) * tw;
    assert Lerp(top, bottom, g) * (tw * th) == Lerp(top, bottom, g) * th * tw;
  }

  /** What the cutoffs of four neighbouring tiles blend to at a pixel between their
      centres, times the area of a tile: `a` and `b` are its distances from the first
      centre. */
  function Blended(c: seq<int>, t: Tile, a: real, b: real): real
    requires |c| == 4
  {
    Between(Between(c[0] as real, c[1] as real, a, t.tw as real), Between(c[2] as real, c[3] as real, a, t.tw as real),
            b, t.th as real)
  }

  lemma InteriorCell(t: seq<seq<Cutoff>>, i: int, j: int)
    requires IsTiles(t) && 0 <= i < |t| - 1 && 0 <= j < |t[0]| - 1
    ensures var q := Grid(t);
      && q[i + 1][j + 1] == t[i][j] as real && q[i + 1][j + 2] == t[i][j + 1] as real
      && q[i + 2][j + 1] == t[i + 1][j] as real && q[i + 2][j + 2] == t[i + 1][j + 1] as real
  {
    hide GridValue;
    InteriorNode(t, i, j);
    InteriorNode(t, i, j + 1);
    InteriorNode(t, i + 1, j);
    InteriorNode(t, i + 1, j + 1);
  }

  /** A pixel between four tile centres: its distances from the first one, and the cell. */
  predicate InCell(region: Box, i: int, j: int, r: int, c: int, a: real, b: real)
    requires Usable(region)
  {
    var t := TileAt(region, i, j);
    && a == c as real - (t.left as real + t.tw as real / 2.0) && 0.0 <= a <= t.tw as real
    && b == r as real - (t.top as real + t.th as real / 2.0) && 0.0 <= b <= t.th as real
  }

  lemma CellFractions(region: Box, i: int, j: int, r: int, c: int, a: real, b: real)
    requires Usable(region) && InCell(region, i, j, r, c, a, b)
    requires 0 <= i < TileCounts(region.w, region.h).1 - 1 && 0 <= j < TileCounts(region.w, region.h).0 - 1
    ensures AxisX(region).Valid() && AxisY(region).Valid()
    ensures var qx, qy, t := Knots(AxisX(region)), Knots(AxisY(region)), TileAt(region, i, j);
      && |qx| == TileCounts(region.w, region.h).0 + 2 && |qy| == TileCounts(region.w, region.h).1 + 2
      && qx[j + 1] <= c as real <= qx[j + 2] && qy[i + 1] <= r as real <= qy[i + 2]
      && Fraction(c as real, qx, j + 1) * t.tw as real == a && Fraction(r as real, qy, i + 1) * t.th as real == b
  {
    hide AxisX, AxisY, Axis.Knot, Axis.Valid, TileAt, Fraction, TileCounts, Knots;
    KnotOfTile(region, i, j);
    AxisFraction(AxisX(region), j, c, a);
    AxisFraction(AxisY(region), i, r, b);
  }

  lemma AxisFraction(ax: Axis, k: int, v: int, a: real)
    requires ax.Valid() && 0 <= k < ax.n - 1 && a == v as real - ax.Knot(k + 1) && 0.0 <= a <= ax.tile as real
    ensures var q := Knots(ax);
      && |q| == ax.n + 2 && q[k + 1] <= v as real <= q[k + 2]
      && Fraction(v as real, q, k + 1) * ax.tile as real == a
  {
    hide Fraction, Axis.Knot;
    KnotStep(ax, k + 1);
    FractionInUnit(v as real, Knots(ax), k + 1);
  }

  lemma CellHasNeighbours(img: Image, region: Box, i: int, j: int, s: seq<seq<Pixel>>)
    requires Usable(region) && region.InsideFrame(img.width, img.height)
    requires |s| == 4 && OwnPixels(img, region, i, j, s[0]) && OwnPixels(img, region, i + 1, j + 1, s[3])
    ensures 0 <= i < TileCounts(region.w, region.h).1 - 1 && 0 <= j < TileCounts(region.w, region.h).0 - 1
  {
  }

  lemma FourCutoffs(img: Image, region: Box, adjustment: int, i: int, j: int, s: seq<seq<Pixel>>)
    requires Usable(region) && region.InsideFrame(img.width, img.height)
    requires |s| == 4 && OwnPixels(img, region, i, j, s[0]) && OwnPixels(img, region, i, j + 1, s[1])
    requires OwnPixels(img, region, i + 1, j, s[2]) && OwnPixels(img, region, i + 1, j + 1, s[3])
    ensures var ts := TileCutoffs(img, region, adjustment);
      && 0 <= i < |ts| - 1 && 0 <= j < |ts[0]| - 1
      && ts[i][j] == Isodata.Cutoff(s[0], adjustment) && ts[i][j + 1] == Isodata.Cutoff(s[1], adjustment)
      && ts[i + 1][j] == Isodata.Cutoff(s[2], adjustment) && ts[i + 1][j + 1] == Isodata.Cutoff(s[3], adjustment)
  {
    hide TileCutoff, AxisX, AxisY, TileAt, Isodata.Cutoff, TileCounts, Lists;
    KnotOfTile(region, i, j);
    TileCutoffOfOwnPixels(img, region, adjustment, i, j, s[0]);
    TileCutoffOfOwnPixels(img, region, adjustment, i, j + 1, s[1]);
    TileCutoffOfOwnPixels(img, region, adjustment, i + 1, j, s[2]);
    TileCutoffOfOwnPixels(img, region, adjustment, i + 1, j + 1, s[3]);
  }

  /** The cutoff of a pixel between four tile centres is the blend of the isodata
      cutoffs of the four tiles' own pixels, by its distances from the centres. */
  lemma CutoffBetweenCentres(img: Image, region: Box, adjustment: int, i: int, j: int, r: int, c: int,
                             a: real, b: real, s: seq<seq<Pixel>>)
    requires Usable(region) && region.InsideFrame(img.width, img.height) && InCell(region, i, j, r, c, a, b)
    requires |s| == 4 && OwnPixels(img, region, i, j, s[0]) && OwnPixels(img, region, i, j + 1, s[1])
    requires OwnPixels(img, region, i + 1, j, s[2]) && OwnPixels(img, region, i + 1, j + 1, s[3])
    ensures var t, cut := TileAt(region, i, j), seq(4, n requires 0 <= n < 4 => Isodata.Cutoff(s[n], adjustment));
            CutoffAt(img, region, adjustment, r, c) * (t.tw as real * t.th as real) == Blended(cut, t, a, b)
  {
    hide TileCutoff, Knots, Grid, Surface, AxisX, AxisY, TileAt, Isodata.Cutoff, TileCounts, Lists, Lerp, Between,
      Fraction, Axis.Valid, OwnPixels, InCell;
    CellHasNeighbours(img, region, i, j, s);
    var ts := TileCutoffs(img, region, adjustment);
    KnotOfTile(region, i, j);
    var qx, qy, q, t := Knots(AxisX(region)), Knots(AxisY(region)), Grid(ts), TileAt(region, i, j);
    CellFractions(region, i, j, r, c, a, b);
    SurfaceOnCell(qx, qy, q, i + 1, j + 1, c as real, r as real);
    InteriorCell(ts, i, j);
    FourCutoffs(img, region, adjustment, i, j, s);
    var f, g := Fraction(c as real, qx, j + 1), Fraction(r as real, qy, i + 1);
    LerpBetweenPixels(q[i + 1][j + 1], q[i + 1][j + 2], a, t.tw as real, f);
    LerpBetweenPixels(q[i + 2][j + 1], q[i + 2][j + 2], a, t.tw as real, f);
    BlendOfBlends(Lerp(q[i + 1][j + 1], q[i + 1][j + 2], f), Lerp(q[i + 2][j + 1], q[i + 2][j + 2], f),
                  Between(q[i + 1][j + 1], q[i + 1][j + 2], a, t.tw as real),
                  Between(q[i + 2][j + 1], q[i + 2][j + 2], a, t.tw as real), b, t.tw as real, t.th as real, g);
  }

  // ----- the output image -----

  /** What threshold_box promises for the pixel at row r, column c. */
  function Output(img: Image, box: Box, adjustment: int, r: int, c: int): Pixel
    requires 0 <= r < img.height && 0 <= c < img.width
  {
    var region := ClipToFrame(box, img.width, img.height);
    if !Usable(region) || !region.Holds(r, c) then img.px[r][c]
    else if region.OnBorder(r, c) then 255
    else if img.px[r][c] as real >= CutoffAt(img, region, adjustment, r, c) then 255
    else 0
  }

  /** The cutoff of one tile. */
  method OneTile(img: Image, region: Box, adjustment: int, i: int, j: int) returns (cutoff: Cutoff)
    requires Usable(region) && region.InsideFrame(img.width, img.height)
    requires 0 <= i < AxisY(region).n && 0 <= j < AxisX(region).n
    ensures cutoff == TileCutoff(img, region, adjustment, i, j)
  {
    hide AxisX, AxisY, TileCounts, Isodata.Cutoff, Ravel;
    AxesFit(region);
    var ax, ay := AxisX(region), AxisY(region);
    TileFits(ay, region.h, i);
    TileFits(ax, region.w, j);
    cutoff := Isodata.TileThreshold(
      Ravel(img, ay.origin + i * ay.tile, ay.tile, ax.origin + j * ax.tile, ax.tile), adjustment);
  }

  method BuildTileRow(img: Image, region: Box, adjustment: int, i: int) returns (row: seq<Cutoff>)
    requires Usable(region) && region.InsideFrame(img.width, img.height)
    requires 0 <= i < AxisY(region).n
    ensures |row| == AxisX(region).n
    ensures forall v :: 0 <= v < |row| ==> row[v] == TileCutoff(img, region, adjustment, i, v)
  {
    hide TileCutoff;
    row := [];
    for j := 0 to AxisX(region).n
      invariant |row| == j
      invariant forall v :: 0 <= v < j ==> row[v] == TileCutoff(img, region, adjustment, i, v)
    {
      var cutoff := OneTile(img, region, adjustment, i, j);
      row := row + [cutoff];
    }
  }

  method BuildTileCutoffs(img: Image, region: Box, adjustment: int) returns (t: seq<seq<Cutoff>>)
    requires Usable(region) && region.InsideFrame(img.width, img.height)
    ensures t == TileCutoffs(img, region, adjustment)
  {
    hide TileCutoff;
    AxesFit(region);
    t := [];
    ghost var want := TileCutoffs(img, region, adjustment);
    for i := 0 to AxisY(region).n
      invariant |t| == i
      invariant forall u :: 0 <= u < i ==> t[u] == want[u]
    {
      var row := BuildTileRow(img, region, adjustment, i);
      assert row == want[i];
      t := t + [row];
    }
  }

  /** One interpolated row of cutoffs per grid row, one value per column. */
  method InterpolateRows(qx: seq<real>, q: array2<real>, ghost grid: seq<seq<real>>, x: int, w: nat)
    returns (rows: seq<seq<real>>)
    requires |qx| >= 2 && Increasing(qx) && q.Length1 == |qx|
    requires Rectangular(grid, q.Length0, |qx|)
    requires forall i, j :: 0 <= i < q.Length0 && 0 <= j < |qx| ==> q[i, j] == grid[i][j]
    ensures Rectangular(rows, |grid|, w)
    ensures forall i, k :: 0 <= i < |grid| && 0 <= k < w ==> rows[i][k] == Interp((x + k) as real, qx, grid[i])
  {
    rows := [];
    for i := 0 to q.Length0
      invariant Rectangular(rows, i, w)
      invariant forall u, k :: 0 <= u < i && 0 <= k < w ==> rows[u][k] == Interp((x + k) as real, qx, grid[u])
    {
      var values := seq(|qx|, j requires 0 <= j < |qx| reads q => q[i, j]);
      assert values == grid[i];
      rows := rows + [seq(w, k => Interp((x + k) as real, qx, values))];
    }
  }

  /** The cutoff of image row r and region column k, between the two nearest rows. */
  function Blend(rows: seq<seq<real>>, qy: seq<real>, w: nat, r: int, k: int): real
    requires |qy| >= 2 && Increasing(qy) && Rectangular(rows, |qy|, w) && 0 <= k < w
  {
    var li, t := CellOf(r as real, qy), Weight(r as real, qy);
    Lerp(rows[li][k], rows[li + 1][k], t)
  }

  lemma BlendIsSurface(qx: seq<real>, qy: seq<real>, q: seq<seq<real>>, rows: seq<seq<real>>, x: int, w: nat, r: int,
                       k: int)
    requires |qx| >= 2 && |qy| >= 2 && Increasing(qx) && Increasing(qy) && Rectangular(q, |qy|, |qx|)
    requires Rectangular(rows, |qy|, w) && 0 <= k < w
    requires forall i :: 0 <= i < |qy| ==> rows[i][k] == Interp((x + k) as real, qx, q[i])
    ensures Blend(rows, qy, w, r, k) == Surface(qx, qy, q, (x + k) as real, r as real)
  {
  }

  /** Ring, knots and the first interpolation pass for one grid of tiles. */
  method InterpolateGrid(t: seq<seq<Cutoff>>, ax: Axis, ay: Axis, x: int, w: nat)
    returns (rows: seq<seq<real>>, qy: seq<real>)
    requires ax.Valid() && ay.Valid() && IsTiles(t) && |t| == ay.n && |t[0]| == ax.n
    ensures qy == Knots(ay) && Rectangular(rows, |qy|, w)
    ensures forall r, k :: 0 <= k < w ==> Blend(rows, qy, w, r, k) == CutoffSurface(t, ax, ay, x + k, r)
  {
    var q := BuildGrid(t);
    var qx := BuildKnots(ax);
    qy := BuildKnots(ay);
    assert qx == Knots(ax) && qy == Knots(ay);
    rows := InterpolateRows(qx, q, Grid(t), x, w);
    forall r, k | 0 <= k < w ensures Blend(rows, qy, w, r, k) == CutoffSurface(t, ax, ay, x + k, r) {
      BlendIsSurface(qx, qy, Grid(t), rows, x, w, r, k);
    }
  }

  method CutoffRows(img: Image, region: Box, adjustment: int) returns (rows: seq<seq<real>>, qy: seq<real>)
    requires Usable(region) && region.InsideFrame(img.width, img.height)
    ensures |qy| >= 2 && Increasing(qy) && Rectangular(rows, |qy|, region.w)
    ensures forall r, k :: 0 <= k < region.w ==>
      Blend(rows, qy, region.w, r, k) == CutoffAt(img, region, adjustment, r, region.x + k)
  {
    hide AxisX, AxisY, TileCounts, TileCutoff, TileCutoffs, Blend, CutoffSurface, Increasing, Rectangular, IsTiles;
    AxesFit(region);
    var ax, ay := AxisX(region), AxisY(region);
    if ax.tile < 2 || ay.tile < 2 {
      assert false;  // the program's guard: TilesAreUsable rules it out
    }
    var t := BuildTileCutoffs(img, region, adjustment);
    rows, qy := InterpolateGrid(t, ax, ay, region.x, region.w);
  }

  /** Each pixel of the region against its own cutoff. */
  method Binarise(img: Image, region: Box, qy: seq<real>, rows: seq<seq<real>>, out: array2<Pixel>)
    requires Usable(region) && region.InsideFrame(img.width, img.height)
    requires out.Length0 == img.height && out.Length1 == img.width
    requires |qy| >= 2 && Increasing(qy) && Rectangular(rows, |qy|, region.w)
    modifies out
    ensures forall r, c :: 0 <= r < img.height && 0 <= c < img.width ==>
      out[r, c] == if region.Holds(r, c)
                   then if img.px[r][c] as real >= Blend(rows, qy, region.w, r, c - region.x) then 255 else 0
                   else old(out[r, c])
  {
    forall r, c | region.y <= r < region.y + region.h && region.x <= c < region.x + region.w {
      out[r, c] := if img.px[r][c] as real >= Blend(rows, qy, region.w, r, c - region.x) then 255 else 0;
    }
  }

  /** The one-pixel quiet zone. */
  method WhiteBorder(region: Box, out: array2<Pixel>)
    requires Usable(region) && region.InsideFrame(out.Length1, out.Length0)
    modifies out
    ensures forall r, c :: 0 <= r < out.Length0 && 0 <= c < out.Length1 ==>
      out[r, c] == if region.OnBorder(r, c) then 255 else old(out[r, c])
  {
    var bottom, right := region.y + region.h - 1, region.x + region.w - 1;
    forall c | region.x <= c < region.x + region.w { out[region.y, c] := 255; }
    forall c | region.x <= c < region.x + region.w { out[bottom, c] := 255; }
    forall r | region.y <= r < region.y + region.h { out[r, region.x] := 255; }
    forall r | region.y <= r < region.y + region.h { out[r, right] := 255; }
  }

  method ThresholdRegion(img: Image, region: Box, adjustment: int, out: array2<Pixel>)
    requires Usable(region) && region.InsideFrame(img.width, img.height)
    requires out.Length0 == img.height && out.Length1 == img.width
    modifies out
    ensures forall r, c :: 0 <= r < img.height && 0 <= c < img.width ==>
      out[r, c] == if region.OnBorder(r, c) then 255
                   else if region.Holds(r, c)
                   then if img.px[r][c] as real >= CutoffAt(img, region, adjustment, r, c) then 255 else 0
                   else old(out[r, c])
  {
    var rows, qy := CutoffRows(img, region, adjustment);
    Binarise(img, region, qy, rows, out);
    assert forall r, c :: region.Holds(r, c) ==>
      Blend(rows, qy, region.w, r, c - region.x) == CutoffAt(img, region, adjustment, r, region.x + (c - region.x));
    WhiteBorder(region, out);
  }

  method Threshold(img: Image, box: Box, adjustment: int) returns (out: array2<Pixel>)
    ensures fresh(out) && out.Length0 == img.height && out.Length1 == img.width
    ensures forall r, c :: 0 <= r < img.height && 0 <= c < img.width ==>
      out[r, c] == Output(img, box, adjustment, r, c)
  {
    out := new Pixel[img.height, img.width]((r, c) requires 0 <= r < img.height && 0 <= c < img.width => img.px[r][c]);
    var region := ClipToFrame(box, img.width, img.height);
    if Usable(region) {
      ThresholdRegion(img, region, adjustment, out);
    }
  }

  /** Off the border, a pixel between four tile centres is white exactly when it is at
      least the blend of the cutoffs of those tiles' own pixels. */
  lemma OutputBetweenCentres(img: Image, box: Box, adjustment: int, i: int, j: int, r: int, c: int,
                             a: real, b: real, s: seq<seq<Pixel>>)
    requires 0 <= r < img.height && 0 <= c < img.width
    requires var region := ClipToFrame(box, img.width, img.height);
      && Usable(region) && region.InsideFrame(img.width, img.height) && region.Holds(r, c) && !region.OnBorder(r, c)
      && InCell(region, i, j, r, c, a, b)
      && |s| == 4 && OwnPixels(img, region, i, j, s[0]) && OwnPixels(img, region, i, j + 1, s[1])
      && OwnPixels(img, region, i + 1, j, s[2]) && OwnPixels(img, region, i + 1, j + 1, s[3])
    ensures var t := TileAt(ClipToFrame(box, img.width, img.height), i, j);
            var cut := seq(4, n requires 0 <= n < 4 => Isodata.Cutoff(s[n], adjustment));
            Output(img, box, adjustment, r, c) ==
              if img.px[r][c] as real * (t.tw as real * t.th as real) >= Blended(cut, t, a, b) then 255 else 0
  {
    hide TileAt, InCell, OwnPixels, CutoffAt, Blended, Isodata.Cutoff, ClipToFrame;
    var region := ClipToFrame(box, img.width, img.height);
    CutoffBetweenCentres(img, region, adjustment, i, j, r, c, a, b, s);
    TileHasArea(region, i, j);
    var t := TileAt(region, i, j);
    CancelAtMost(CutoffAt(img, region, adjustment, r, c), img.px[r][c] as real, t.tw as real * t.th as real);
  }

  lemma TileHasArea(region: Box, i: int, j: int)
    requires Usable(region)
    ensures TileAt(region, i, j).tw as real * TileAt(region, i, j).th as real > 0.0
  {
    AxesFit(region);
    TilesAreUsable(region.w, region.h);
    AreaPositive(TileAt(region, i, j).tw, TileAt(region, i, j).th);
  }

  lemma AreaPositive(w: int, h: int)
    requires w >= 2 && h >= 2
    ensures w as real * h as real > 0.0
  {
  }

  /** Binary inside the clipped region, white on its border, unchanged outside;
      pure black and pure white pixels off the border keep their colour. */
  lemma OutputShape(img: Image, box: Box, adjustment: int, r: int, c: int)
    requires 0 <= r < img.height && 0 <= c < img.width
    ensures var region := ClipToFrame(box, img.width, img.height);
            var v := Output(img, box, adjustment, r, c);
            var large := region.w >= 8 && region.h >= 8;
            && (!large || !box.Holds(r, c) ==> v == img.px[r][c])
            && (large && box.Holds(r, c) ==> v == 0 || v == 255)
            && (large && region.OnBorder(r, c) ==> v == 255)
            && (large && box.Holds(r, c) && !region.OnBorder(r, c) ==>
                  (img.px[r][c] < 5 ==> v == 0) && (img.px[r][c] >= 250 ==> v == 255))
  {
    var region := ClipToFrame(box, img.width, img.height);
    ClipKeepsFramePixels(box, img.width, img.height, r, c);
    if Usable(region) && region.Holds(r, c) {
      CutoffAlwaysInRange(img, region, adjustment, r, c);
    }
  }
}
