// The isodata cutoff of one tile (tools/calibrate_camera.py, _tile_threshold).
//
// The program works from cumulative histograms; the specification below works
// directly on the pixels of the two classes. The methods are proved against the
// specification, and the lemmas then say how the iteration behaves.
module Isodata {

  type Pixel = p: int | 0 <= p < 256

  const DEFAULT_CUTOFF := 128
  const MAX_PASSES := 10
  const LOWEST_CUTOFF := 5
  const HIGHEST_CUTOFF := 250

  function Clamp(x: int, lo: int, hi: int): int {
    if x < lo then lo else if x > hi then hi else x
  }

  // ----- the two classes of pixels, straight from the tile -----

  function CountBelow(tile: seq<Pixel>, p: int): nat {
    if tile == [] then 0
    else CountBelow(tile[..|tile| - 1], p) + if tile[|tile| - 1] < p then 1 else 0
  }

  function SumBelow(tile: seq<Pixel>, p: int): nat {
    if tile == [] then 0
    else SumBelow(tile[..|tile| - 1], p) + if tile[|tile| - 1] < p then tile[|tile| - 1] else 0
  }

  function CountFrom(tile: seq<Pixel>, p: int): nat {
    if tile == [] then 0
    else CountFrom(tile[..|tile| - 1], p) + if tile[|tile| - 1] >= p then 1 else 0
  }

  function SumFrom(tile: seq<Pixel>, p: int): nat {
    if tile == [] then 0
    else SumFrom(tile[..|tile| - 1], p) + if tile[|tile| - 1] >= p then tile[|tile| - 1] else 0
  }

  function CountOf(tile: seq<Pixel>, v: int): nat {
    if tile == [] then 0
    else CountOf(tile[..|tile| - 1], v) + if tile[|tile| - 1] == v then 1 else 0
  }

  // ----- one pass, and a run of passes -----

  datatype Pass = Pass(prediction: int, stopped: bool)

  /** Whether splitting at the clamped prediction leaves both classes populated. */
  predicate Splits(tile: seq<Pixel>, prediction: int) {
    var p := Clamp(prediction, 1, 255);
    CountBelow(tile, p) > 0 && CountFrom(tile, p) > 0
  }

  /** The midpoint of the (floored) means of the dark and the bright class. */
  function Midpoint(tile: seq<Pixel>, prediction: int): int
    requires Splits(tile, prediction)
  {
    var p := Clamp(prediction, 1, 255);
    (SumBelow(tile, p) / CountBelow(tile, p) + SumFrom(tile, p) / CountFrom(tile, p)) / 2
  }

  function Refine(tile: seq<Pixel>, prediction: int): Pass {
    if !Splits(tile, prediction) then Pass(prediction, true)
    else
      var next := Midpoint(tile, prediction);
      Pass(next, -2 <= prediction - next <= 2)
  }

  function Iterate(tile: seq<Pixel>, prediction: int, passes: nat): Pass
    decreases passes
  {
    if passes == 0 then Pass(prediction, false)
    else
      var r := Refine(tile, prediction);
      if r.stopped then r else Iterate(tile, r.prediction, passes - 1)
  }

  function Mean(tile: seq<Pixel>): int
    requires tile != []
  {
    SumBelow(tile, 256) / |tile|
  }

  /** The cutoff the program promises for a tile. */
  function Cutoff(tile: seq<Pixel>, adjustment: int): int {
    if tile == [] then DEFAULT_CUTOFF
    else Clamp(Iterate(tile, Mean(tile), MAX_PASSES).prediction + adjustment,
               LOWEST_CUTOFF, HIGHEST_CUTOFF)
  }

  // ----- the iteration, said with sums and counts -----

  /** The next prediction: half the sum, rounded down, of the whole parts of the two class
      means, the dark class below the prediction held to 1..255. */
  ghost predicate Halfway(tile: seq<Pixel>, prediction: int, next: int) {
    exists dark, bright ::
      AreMeans(tile, Divide(prediction), dark, bright) && 2 * next <= dark + bright <= 2 * next + 1
  }

  function Divide(prediction: int): int {
    if prediction < 1 then 1 else if prediction > 255 then 255 else prediction
  }

  /** The whole parts of the means of the two classes that `p` splits the tile into. */
  predicate AreMeans(tile: seq<Pixel>, p: int, dark: int, bright: int) {
    && dark * CountBelow(tile, p) <= SumBelow(tile, p) < (dark + 1) * CountBelow(tile, p)
    && bright * CountFrom(tile, p) <= SumFrom(tile, p) < (bright + 1) * CountFrom(tile, p)
  }

  lemma WholePart(sum: int, count: int)
    requires count > 0
    ensures sum / count * count <= sum < (sum / count + 1) * count
  {
  }

  lemma HalfwayBy(tile: seq<Pixel>, prediction: int, next: int, dark: int, bright: int)
    requires AreMeans(tile, Divide(prediction), dark, bright) && next == (dark + bright) / 2
    ensures Halfway(tile, prediction, next)
  {
    hide AreMeans;
    assert 2 * next <= dark + bright <= 2 * next + 1;
  }

  lemma MidpointIsHalfway(tile: seq<Pixel>, prediction: int)
    requires Splits(tile, prediction)
    ensures Halfway(tile, prediction, Midpoint(tile, prediction))
  {
    var p := Clamp(prediction, 1, 255);
    var dark, bright := SumBelow(tile, p) / CountBelow(tile, p), SumFrom(tile, p) / CountFrom(tile, p);
    WholePart(SumBelow(tile, p), CountBelow(tile, p));
    WholePart(SumFrom(tile, p), CountFrom(tile, p));
    var next := Midpoint(tile, prediction);
    HalfwayBy(tile, prediction, next, dark, bright);
  }

  /** The classes at this prediction are not both populated. */
  ghost predicate OneClass(tile: seq<Pixel>, prediction: int) {
    CountBelow(tile, Divide(prediction)) == 0 || CountFrom(tile, Divide(prediction)) == 0
  }

  /** Predictions, each halfway from the one before; only the last pair may be within 2. */
  ghost predicate IsChain(tile: seq<Pixel>, chain: seq<int>) {
    && chain != []
    && (forall i :: 0 <= i < |chain| - 1 ==> !OneClass(tile, chain[i]) && Halfway(tile, chain[i], chain[i + 1]))
    && (forall i :: 0 <= i < |chain| - 2 ==> chain[i + 1] - chain[i] > 2 || chain[i] - chain[i + 1] > 2)
  }

  /** The chain is over: one class is empty, the last move was at most 2, or there were
      `passes` moves. */
  ghost predicate ChainEnds(tile: seq<Pixel>, chain: seq<int>, passes: nat)
    requires chain != []
  {
    var n := |chain| - 1;
    || OneClass(tile, chain[n])
    || (n > 0 && -2 <= chain[n] - chain[n - 1] <= 2)
    || n == passes
  }

  lemma {:induction false} IterateIsChain(tile: seq<Pixel>, prediction: int, passes: nat) returns (chain: seq<int>)
    ensures IsChain(tile, chain) && chain[0] == prediction && |chain| <= passes + 1
    ensures ChainEnds(tile, chain, passes)
    ensures chain[|chain| - 1] == Iterate(tile, prediction, passes).prediction
    decreases passes
  {
    hide Halfway, Midpoint;
    if passes == 0 || !Splits(tile, prediction) {
      chain := [prediction];
    } else {
      var next := Midpoint(tile, prediction);
      MidpointIsHalfway(tile, prediction);
      if -2 <= prediction - next <= 2 {
        chain := [prediction, next];
      } else {
        var rest := IterateIsChain(tile, next, passes - 1);
        chain := [prediction] + rest;
        assert chain[1] == next;
        ChainGrows(tile, prediction, rest, passes - 1);
      }
    }
  }

  lemma ChainGrows(tile: seq<Pixel>, first: int, rest: seq<int>, passes: nat)
    requires IsChain(tile, rest) && ChainEnds(tile, rest, passes)
    requires !OneClass(tile, first) && Halfway(tile, first, rest[0]) && (rest[0] - first > 2 || first - rest[0] > 2)
    ensures IsChain(tile, [first] + rest) && ChainEnds(tile, [first] + rest, passes + 1)
  {
    hide Halfway, OneClass;
    var chain := [first] + rest;
    forall i | 0 <= i < |chain| - 1 ensures !OneClass(tile, chain[i]) && Halfway(tile, chain[i], chain[i + 1]) {
      assert i > 0 ==> chain[i] == rest[i - 1] && chain[i + 1] == rest[i];
    }
    forall i | 0 <= i < |chain| - 2 ensures chain[i + 1] - chain[i] > 2 || chain[i] - chain[i + 1] > 2 {
      assert i > 0 ==> chain[i] == rest[i - 1] && chain[i + 1] == rest[i];
    }
  }

  /** The cutoff of a tile with pixels: from the whole part of their mean, at most ten
      moves halfway, then the adjustment added, held to 5..250. */
  lemma CutoffMeans(tile: seq<Pixel>, adjustment: int) returns (chain: seq<int>)
    requires tile != []
    ensures IsChain(tile, chain) && |chain| <= 11 && ChainEnds(tile, chain, 10)
    ensures chain[0] * |tile| <= SumBelow(tile, 256) < (chain[0] + 1) * |tile|
    ensures var last := chain[|chain| - 1] + adjustment;
            Cutoff(tile, adjustment) == if last < 5 then 5 else if last > 250 then 250 else last
  {
    WholePart(SumBelow(tile, 256), |tile|);
    chain := IterateIsChain(tile, Mean(tile), 10);
    hide IsChain, ChainEnds, Iterate, Mean;
  }

  // ----- cumulative histograms are exactly the class counts and sums -----

  lemma {:induction false} NextBin(tile: seq<Pixel>, v: int)
    ensures CountBelow(tile, v + 1) == CountBelow(tile, v) + CountOf(tile, v)
    ensures SumBelow(tile, v + 1) == SumBelow(tile, v) + v * CountOf(tile, v)
  {
    if tile != [] {
      NextBin(tile[..|tile| - 1], v);
      OneMore(v, CountOf(tile[..|tile| - 1], v), if tile[|tile| - 1] == v then 1 else 0);
    }
  }

  lemma {:induction false} NothingBelowZero(tile: seq<Pixel>)
    ensures CountBelow(tile, 0) == SumBelow(tile, 0) == 0
  {
    if tile != [] {
      NothingBelowZero(tile[..|tile| - 1]);
    }
  }

  /** The two classes partition the tile, in number and in weight. */
  lemma {:induction false} ClassesPartition(tile: seq<Pixel>, p: int)
    ensures CountBelow(tile, p) + CountFrom(tile, p) == |tile|
    ensures SumBelow(tile, p) + SumFrom(tile, p) == SumBelow(tile, 256)
    ensures CountBelow(tile, 256) == |tile|
  {
    if tile != [] {
      ClassesPartition(tile[..|tile| - 1], p);
    }
  }

  method Bincount(tile: seq<Pixel>) returns (bins: seq<nat>)
    ensures |bins| == 256
    ensures forall v :: 0 <= v < 256 ==> bins[v] == CountOf(tile, v)
  {
    bins := seq(256, _ => 0);
    for i := 0 to |tile|
      invariant |bins| == 256
      invariant forall v :: 0 <= v < 256 ==> bins[v] == CountOf(tile[..i], v)
    {
      assert tile[..i + 1][..i] == tile[..i];
      bins := bins[tile[i] := bins[tile[i]] + 1];
    }
    assert tile[..|tile|] == tile;
  }

  method CumulativeSums(tile: seq<Pixel>) returns (cumN: seq<nat>, cumW: seq<nat>)
    ensures |cumN| == |cumW| == 256
    ensures forall v :: 0 <= v < 256 ==> cumN[v] == CountBelow(tile, v + 1)
    ensures forall v :: 0 <= v < 256 ==> cumW[v] == SumBelow(tile, v + 1)
  {
    var bins := Bincount(tile);
    cumN, cumW := [], [];
    var n, w := 0, 0;
    NothingBelowZero(tile);
    for v := 0 to 256
      invariant |cumN| == |cumW| == v
      invariant n == CountBelow(tile, v) && w == SumBelow(tile, v)
      invariant forall u :: 0 <= u < v ==> cumN[u] == CountBelow(tile, u + 1)
      invariant forall u :: 0 <= u < v ==> cumW[u] == SumBelow(tile, u + 1)
    {
      NextBin(tile, v);
      n, w := n + bins[v], w + v * bins[v];
      cumN, cumW := cumN + [n], cumW + [w];
    }
  }

  /** One pass of the loop, from the prefix sums alone. */
  method OnePass(ghost tile: seq<Pixel>, cumN: seq<nat>, cumW: seq<nat>, total: nat, prediction: int)
    returns (next: int, stopped: bool)
    requires total == |tile| && |cumN| == |cumW| == 256
    requires forall v :: 0 <= v < 256 ==> cumN[v] == CountBelow(tile, v + 1)
    requires forall v :: 0 <= v < 256 ==> cumW[v] == SumBelow(tile, v + 1)
    ensures Pass(next, stopped) == Refine(tile, prediction)
  {
    hide CountBelow, SumBelow, CountFrom, SumFrom;
    var p := Clamp(prediction, 1, 255);
    ClassesPartition(tile, p);
    var n1 := cumN[p - 1];
    var n2 := total - n1;
    if n1 == 0 || n2 == 0 {
      return prediction, true;
    }
    var avg1 := cumW[p - 1] / n1;
    var avg2 := (cumW[255] - cumW[p - 1]) / n2;
    next := (avg1 + avg2) / 2;
    stopped := -2 <= prediction - next <= 2;
  }

  method TileThreshold(tile: seq<Pixel>, adjustment: int) returns (cutoff: int)
    ensures cutoff == Cutoff(tile, adjustment)
    ensures 5 <= cutoff <= 250 && (tile == [] ==> cutoff == 128)
  {
    hide CountBelow, SumBelow, CountFrom, SumFrom, Refine;
    var total := |tile|;
    if total == 0 {
      return DEFAULT_CUTOFF;
    }
    var cumN, cumW := CumulativeSums(tile);
    var prediction := cumW[255] / total;
    var pass := 0;
    var stopped := false;
    while pass < MAX_PASSES && !stopped
      invariant 0 <= pass <= MAX_PASSES
      invariant !stopped ==> Iterate(tile, prediction, MAX_PASSES - pass) == Iterate(tile, Mean(tile), MAX_PASSES)
      invariant stopped ==> prediction == Iterate(tile, Mean(tile), MAX_PASSES).prediction
    {
      prediction, stopped := OnePass(tile, cumN, cumW, total, prediction);
      pass := pass + 1;
    }
    cutoff := Clamp(prediction + adjustment, LOWEST_CUTOFF, HIGHEST_CUTOFF);
  }

  // ----- how the iteration behaves -----

  ghost predicate Within(tile: seq<Pixel>, lo: int, hi: int) {
    forall i :: 0 <= i < |tile| ==> lo <= tile[i] <= hi
  }

  lemma OneMore(k: int, n: int, d: int)
    requires d == 0 || d == 1
    ensures k * (n + d) == k * n + if d == 1 then k else 0
  {
  }

  /** A class whose members lie in [lo, hi] weighs between lo and hi a member. */
  lemma {:induction false} DarkClassWeight(tile: seq<Pixel>, p: int, lo: int, hi: int)
    requires forall i :: 0 <= i < |tile| && tile[i] < p ==> lo <= tile[i] <= hi
    ensures lo * CountBelow(tile, p) <= SumBelow(tile, p) <= hi * CountBelow(tile, p)
  {
    if tile != [] {
      var rest, x := tile[..|tile| - 1], tile[|tile| - 1];
      DarkClassWeight(rest, p, lo, hi);
      OneMore(lo, CountBelow(rest, p), if x < p then 1 else 0);
      OneMore(hi, CountBelow(rest, p), if x < p then 1 else 0);
    }
  }

  lemma {:induction false} BrightClassWeight(tile: seq<Pixel>, p: int, lo: int, hi: int)
    requires forall i :: 0 <= i < |tile| && tile[i] >= p ==> lo <= tile[i] <= hi
    ensures lo * CountFrom(tile, p) <= SumFrom(tile, p) <= hi * CountFrom(tile, p)
  {
    if tile != [] {
      var rest, x := tile[..|tile| - 1], tile[|tile| - 1];
      BrightClassWeight(rest, p, lo, hi);
      OneMore(lo, CountFrom(rest, p), if x >= p then 1 else 0);
      OneMore(hi, CountFrom(rest, p), if x >= p then 1 else 0);
    }
  }

  /** Raising the split from `p` to `q` moves pixels worth at least `p` each into
      the dark class, and pixels worth less than `q` each out of the bright one. */
  lemma {:induction false} RaisingTheSplit(tile: seq<Pixel>, p: int, q: int)
    requires p <= q
    ensures var joined := CountBelow(tile, q) - CountBelow(tile, p);
            && joined >= 0
            && CountFrom(tile, p) - CountFrom(tile, q) == joined
            && p * joined <= SumBelow(tile, q) - SumBelow(tile, p) <= (q - 1) * joined
            && SumFrom(tile, p) - SumFrom(tile, q) == SumBelow(tile, q) - SumBelow(tile, p)
  {
    if tile != [] {
      var rest, x := tile[..|tile| - 1], tile[|tile| - 1];
      RaisingTheSplit(rest, p, q);
      var d := if p <= x < q then 1 else 0;
      OneMore(p, CountBelow(rest, q) - CountBelow(rest, p), d);
      OneMore(q - 1, CountBelow(rest, q) - CountBelow(rest, p), d);
    }
  }

  lemma MulMono(a: int, b: int, n: int)
    requires a <= b && n >= 0
    ensures a * n <= b * n
  {
  }

  /** A quotient is at least `m` exactly when the numerator reaches `m` times
      the denominator. */
  lemma QuotientAtLeast(w: int, n: int, m: int)
    requires n > 0
    ensures m <= w / n <==> m * n <= w
  {
    var k := w / n;
    assert k * n <= w < k * n + n;
    if m <= k {
      MulMono(m, k, n);
    } else {
      MulMono(k + 1, m, n);
      assert (k + 1) * n == k * n + n;
    }
  }

  lemma FloorBounds(w: int, n: int, lo: int, hi: int)
    requires n > 0 && lo * n <= w <= hi * n
    ensures lo <= w / n <= hi
  {
    QuotientAtLeast(w, n, lo);
    QuotientAtLeast(w, n, hi + 1);
    assert (hi + 1) * n == hi * n + n;
  }

  /** The floored mean cannot fall when members at least `p > mean` join. */
  lemma JoiningAbove(w: int, n: int, joined: nat, added: int, p: int)
    requires 0 < n && w <= (p - 1) * n && added >= p * joined
    ensures w / n <= (w + added) / (n + joined)
  {
    var m := w / n;
    QuotientAtLeast(w, n, m);
    FloorBounds(w, n, m, p - 1);
    MulMono(m, p, joined);
    assert m * (n + joined) == m * n + m * joined;
    QuotientAtLeast(w + added, n + joined, m);
  }

  /** The floored mean cannot fall when members below `q <= mean` leave. */
  lemma LeavingBelow(w: int, n: int, left: nat, removed: int, q: int)
    requires 0 < n && w >= q * n && removed <= (q - 1) * left
    ensures (w + removed) / (n + left) <= w / n
  {
    var m := (w + removed) / (n + left);
    QuotientAtLeast(w + removed, n + left, m);
    assert m * (n + left) == m * n + m * left;
    if m <= q {
      MulMono(m, q, n);
    } else {
      MulMono(q - 1, m, left);
    }
    QuotientAtLeast(w, n, m);
  }

  /** The update is monotone in the prediction it starts from. */
  lemma MidpointMonotone(tile: seq<Pixel>, a: int, b: int)
    requires a <= b && Splits(tile, a) && Splits(tile, b)
    ensures Midpoint(tile, a) <= Midpoint(tile, b)
  {
    var p, q := Clamp(a, 1, 255), Clamp(b, 1, 255);
    RaisingTheSplit(tile, p, q);
    var joined := CountBelow(tile, q) - CountBelow(tile, p);
    var weight := SumBelow(tile, q) - SumBelow(tile, p);
    DarkClassWeight(tile, p, 0, p - 1);
    JoiningAbove(SumBelow(tile, p), CountBelow(tile, p), joined, weight, p);
    BrightClassWeight(tile, q, q, 255);
    LeavingBelow(SumFrom(tile, q), CountFrom(tile, q), joined, weight, q);
  }

  /** No pass leaves the range of the tile's own pixels. */
  lemma RefineStaysWithin(tile: seq<Pixel>, prediction: int, lo: int, hi: int)
    requires Within(tile, lo, hi) && lo <= prediction <= hi
    ensures lo <= Refine(tile, prediction).prediction <= hi
  {
    if Splits(tile, prediction) {
      var p := Clamp(prediction, 1, 255);
      DarkClassWeight(tile, p, lo, hi);
      BrightClassWeight(tile, p, lo, hi);
      FloorBounds(SumBelow(tile, p), CountBelow(tile, p), lo, hi);
      FloorBounds(SumFrom(tile, p), CountFrom(tile, p), lo, hi);
    }
  }

  lemma MeanWithin(tile: seq<Pixel>, lo: int, hi: int)
    requires tile != [] && Within(tile, lo, hi)
    ensures lo <= Mean(tile) <= hi
  {
    DarkClassWeight(tile, 256, lo, hi);
    ClassesPartition(tile, 256);
    FloorBounds(SumBelow(tile, 256), |tile|, lo, hi);
  }

  lemma {:induction false} IterateStaysWithin(tile: seq<Pixel>, prediction: int, passes: nat, lo: int, hi: int)
    requires Within(tile, lo, hi) && lo <= prediction <= hi
    ensures lo <= Iterate(tile, prediction, passes).prediction <= hi
    decreases passes
  {
    RefineStaysWithin(tile, prediction, lo, hi);
    if passes > 0 && !Refine(tile, prediction).stopped {
      IterateStaysWithin(tile, Refine(tile, prediction).prediction, passes - 1, lo, hi);
    }
  }

  /** A pass that moves one way is never followed by one that moves back. */
  lemma DirectionPersists(tile: seq<Pixel>, prediction: int)
    ensures var next := Refine(tile, prediction).prediction;
            && (next >= prediction ==> Refine(tile, next).prediction >= next)
            && (next <= prediction ==> Refine(tile, next).prediction <= next)
  {
    var next := Refine(tile, prediction).prediction;
    if Splits(tile, prediction) && Splits(tile, next) {
      if next >= prediction {
        MidpointMonotone(tile, prediction, next);
      }
      if next <= prediction {
        MidpointMonotone(tile, next, prediction);
      }
    }
  }

  /** Over a whole run the prediction moves in one direction only: the later of
      two points of a run lies on the side the first pass moved towards. */
  lemma {:induction false} OneDirection(tile: seq<Pixel>, prediction: int, i: nat, j: nat)
    requires i <= j
    ensures Refine(tile, prediction).prediction >= prediction ==>
              Iterate(tile, prediction, i).prediction <= Iterate(tile, prediction, j).prediction
    ensures Refine(tile, prediction).prediction <= prediction ==>
              Iterate(tile, prediction, i).prediction >= Iterate(tile, prediction, j).prediction
    decreases j
  {
    var r := Refine(tile, prediction);
    if j > 0 && !r.stopped {
      DirectionPersists(tile, prediction);
      if i > 0 {
        OneDirection(tile, r.prediction, i - 1, j - 1);
      } else {
        OneDirection(tile, r.prediction, 0, j - 1);
      }
    }
  }

  /** Without the cap the loop stops by itself: every pass that does not stop
      moves at least 3 grey levels towards the end of the pixel range. */
  lemma {:induction false} RunStops(tile: seq<Pixel>, prediction: int, lo: int, hi: int, passes: nat)
    requires Within(tile, lo, hi) && lo <= prediction <= hi
    requires Refine(tile, prediction).prediction >= prediction ==> 3 * passes > hi - prediction
    requires Refine(tile, prediction).prediction <= prediction ==> 3 * passes > prediction - lo
    ensures Iterate(tile, prediction, passes).stopped
    decreases passes
  {
    var r := Refine(tile, prediction);
    RefineStaysWithin(tile, prediction, lo, hi);
    if !r.stopped {
      DirectionPersists(tile, prediction);
      var rr := Refine(tile, r.prediction);
      if rr.prediction == r.prediction {
        assert rr.stopped;
        if passes == 1 {
        } else {
          assert Iterate(tile, r.prediction, passes - 1) == rr;
        }
      } else {
        RunStops(tile, r.prediction, lo, hi, passes - 1);
      }
    }
  }

  lemma {:induction false} ExtraPassesChangeNothing(tile: seq<Pixel>, prediction: int, passes: nat, more: nat)
    requires passes <= more && Iterate(tile, prediction, passes).stopped
    ensures Iterate(tile, prediction, more) == Iterate(tile, prediction, passes)
    decreases passes
  {
    if !Refine(tile, prediction).stopped {
      ExtraPassesChangeNothing(tile, Refine(tile, prediction).prediction, passes - 1, more - 1);
    }
  }

  /** For a tile with pixels in [lo, hi], (hi - lo) / 3 + 1 passes settle the loop
      for good; for any tile at all, 86 do. */
  lemma UncappedLoopSettles(tile: seq<Pixel>, lo: int, hi: int, more: nat)
    requires tile != [] && Within(tile, lo, hi)
    requires more >= (hi - lo) / 3 + 1
    ensures lo <= hi && Iterate(tile, Mean(tile), (hi - lo) / 3 + 1).stopped
    ensures Iterate(tile, Mean(tile), more) == Iterate(tile, Mean(tile), (hi - lo) / 3 + 1)
    ensures more >= 86 ==> Iterate(tile, Mean(tile), more) == Iterate(tile, Mean(tile), 86)
  {
    MeanWithin(tile, lo, hi);
    var enough: nat := (hi - lo) / 3 + 1;
    RunStops(tile, Mean(tile), lo, hi, enough);
    ExtraPassesChangeNothing(tile, Mean(tile), enough, more);
    assert Within(tile, 0, 255);
    MeanWithin(tile, 0, 255);
    RunStops(tile, Mean(tile), 0, 255, 86);
    if more >= 86 {
      ExtraPassesChangeNothing(tile, Mean(tile), 86, more);
    }
  }

  /** The cutoff lies in [5, 250]; with no adjustment and pixels inside that
      range it lies between the darkest and the brightest pixel. */
  lemma CutoffInRange(tile: seq<Pixel>, adjustment: int, lo: int, hi: int)
    requires tile != [] && Within(tile, lo, hi)
    ensures LOWEST_CUTOFF <= Cutoff(tile, adjustment) <= HIGHEST_CUTOFF
    ensures Clamp(lo + adjustment, LOWEST_CUTOFF, HIGHEST_CUTOFF) <= Cutoff(tile, adjustment)
    ensures Cutoff(tile, adjustment) <= Clamp(hi + adjustment, LOWEST_CUTOFF, HIGHEST_CUTOFF)
  {
    MeanWithin(tile, lo, hi);
    IterateStaysWithin(tile, Mean(tile), MAX_PASSES, lo, hi);
  }

  /** When the capped loop stopped by itself, the prediction is within two grey
      levels of the midpoint it was computed from, or one class is empty. */
  lemma {:induction false} StoppedIsSettled(tile: seq<Pixel>, prediction: int, passes: nat)
    returns (from: int)
    requires Iterate(tile, prediction, passes).stopped
    ensures Refine(tile, from) == Iterate(tile, prediction, passes)
    ensures !Splits(tile, from) || -2 <= from - Midpoint(tile, from) <= 2
    decreases passes
  {
    if Refine(tile, prediction).stopped {
      from := prediction;
    } else {
      from := StoppedIsSettled(tile, Refine(tile, prediction).prediction, passes - 1);
    }
  }
}
