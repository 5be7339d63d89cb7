// Detector (src/detector.cpp): the intrinsics rescale, the gate chain of detect
// and its counters. What the ArUco decoder and the pose solver return is an
// arbitrary input.
module Detectors {
  import opened Wrappers
  import opened AppConfigs

  // ----- intrinsics -----

  function Times(a: real, b: real): real {
    a * b
  }

  /** The entries of a camera matrix that are not constant. */
  datatype Intrinsics = Intrinsics(fx: real, fy: real, cx: real, cy: real) {
    function Scaled(sx: real, sy: real): Intrinsics {
      Intrinsics(Times(fx, sx), Times(fy, sy), Times(cx, sx), Times(cy, sy))
    }

    function ProjectU(x: real, z: real): real
      requires z != 0.0
    {
      fx * x / z + cx
    }

    function ProjectV(y: real, z: real): real
      requires z != 0.0
    {
      fy * y / z + cy
    }
  }

  /** Rescaled intrinsics project every point to the original pixel, scaled. */
  lemma ScaledProjection(k: Intrinsics, sx: real, sy: real, x: real, y: real, z: real)
    requires z != 0.0
    ensures k.Scaled(sx, sy).ProjectU(x, z) == sx * k.ProjectU(x, z)
    ensures k.Scaled(sx, sy).ProjectV(y, z) == sy * k.ProjectV(y, z)
  {
    ScaledCoordinate(k.fx, k.cx, sx, x, z);
    ScaledCoordinate(k.fy, k.cy, sy, y, z);
  }

  lemma ScaledCoordinate(f: real, c: real, s: real, x: real, z: real)
    requires z != 0.0
    ensures f * s * x / z + c * s == s * (f * x / z + c)
  {
    var q := f * x / z;
    assert q * z == f * x;
    assert f * s * x == s * q * z;
    assert f * s * x / z == s * q;
  }

  datatype Size = Size(w: int, h: int)

  function Configured(camera: CameraConfig): Intrinsics {
    Intrinsics(camera.fx, camera.fy, camera.cx, camera.cy)
  }

  /** A calibration size is on record and the frame has another size. */
  predicate Mismatch(camera: CameraConfig, s: Size) {
    && camera.calibWidth > 0 && camera.calibHeight > 0
    && (camera.calibWidth != s.w || camera.calibHeight != s.h)
  }

  /** What one initialisation at this size multiplies the matrix by. */
  function FactorX(camera: CameraConfig, s: Size): real {
    if Mismatch(camera, s) then s.w as real / camera.calibWidth as real else 1.0
  }

  function FactorY(camera: CameraConfig, s: Size): real {
    if Mismatch(camera, s) then s.h as real / camera.calibHeight as real else 1.0
  }

  function ProductX(camera: CameraConfig, history: seq<Size>): real {
    if history == [] then 1.0
    else Times(ProductX(camera, history[..|history| - 1]), FactorX(camera, history[|history| - 1]))
  }

  function ProductY(camera: CameraConfig, history: seq<Size>): real {
    if history == [] then 1.0
    else Times(ProductY(camera, history[..|history| - 1]), FactorY(camera, history[|history| - 1]))
  }

  /** The matrix after initialisations at these sizes, scaled in place each time. */
  function RawAfter(camera: CameraConfig, history: seq<Size>): Intrinsics {
    if history == [] then Configured(camera)
    else
      RawAfter(camera, history[..|history| - 1]).Scaled(
        FactorX(camera, history[|history| - 1]), FactorY(camera, history[|history| - 1]))
  }

  lemma TimesAssociates(a: real, b: real, c: real)
    ensures Times(Times(a, b), c) == Times(a, Times(b, c))
  {
  }

  lemma ScaledAgain(k: Intrinsics, sx: real, sy: real, tx: real, ty: real)
    ensures k.Scaled(sx, sy).Scaled(tx, ty) == k.Scaled(Times(sx, tx), Times(sy, ty))
  {
    TimesAssociates(k.fx, sx, tx);
    TimesAssociates(k.fy, sy, ty);
    TimesAssociates(k.cx, sx, tx);
    TimesAssociates(k.cy, sy, ty);
  }

  /** Product law: over any history of sizes the matrix is the configured one
      times the product of the factors of all its initialisations. */
  lemma {:induction false} RawIsProduct(camera: CameraConfig, history: seq<Size>)
    ensures RawAfter(camera, history) == Configured(camera).Scaled(ProductX(camera, history), ProductY(camera, history))
  {
    if history != [] {
      var before, last := history[..|history| - 1], history[|history| - 1];
      RawIsProduct(camera, before);
      ScaledAgain(Configured(camera), ProductX(camera, before), ProductY(camera, before),
                  FactorX(camera, last), FactorY(camera, last));
    }
  }

  // ----- markers and verdicts -----

  datatype Point = Point(x: real, y: real)

  /** A double that may not be finite. */
  datatype Number = Finite(v: real) | NonFinite

  type Matrix33 = m: seq<seq<real>> | |m| == 3 && |m[0]| == 3 && |m[1]| == 3 && |m[2]| == 3
    witness [[1.0, 0.0, 0.0], [0.0, 1.0, 0.0], [0.0, 0.0, 1.0]]

  /** A solved pose and the reprojection distance of each of the four corners. */
  datatype Pose = Pose(tx: real, ty: real, range: Number, rotation: Matrix33, errors: (real, real, real, real))

  /** A decoded marker, and what solvePnP makes of it. */
  datatype Marker = Marker(id: int, corners: seq<Point>, pose: Option<Pose>)

  datatype Detection = Detection(
    tagId: int, family: string, size: real, t: seq<real>, rotation: Matrix33, reproj: real, corners: seq<Point>)

  datatype Verdict = RejectedId | Uncounted | RejectedPnp | RejectedRange | RejectedReproj | Accepted(d: Detection)

  function MeanError(p: Pose): real {
    (p.errors.0 + p.errors.1 + p.errors.2 + p.errors.3) / 4.0
  }

  /** The gate chain for one marker. */
  function Judge(cfg: StreamConfig, m: Marker): Verdict {
    if !cfg.tags.Accepts(m.id) then RejectedId
    else if |m.corners| != 4 then Uncounted
    else if cfg.tags.SizeFor(m.id) <= 0.0 then Uncounted
    else if m.pose.None? then RejectedPnp
    else
      var p := m.pose.value;
      if p.range.NonFinite? || p.range.v < cfg.detector.minRange || p.range.v > cfg.detector.maxRange then RejectedRange
      else if cfg.detector.maxReproj > 0.0 && MeanError(p) > cfg.detector.maxReproj then RejectedReproj
      else Accepted(Detection(m.id, cfg.detector.family, cfg.tags.SizeFor(m.id), [p.tx, p.ty, p.range.v], p.rotation,
                              MeanError(p), m.corners))
  }

  function SumOfErrors(p: Pose): real {
    p.errors.0 + p.errors.1 + p.errors.2 + p.errors.3
  }

  /** Which verdict a marker gets, gate by gate in this order: the accepted ids, four
      corners and a positive size, a solved pose, a finite range inside its limits,
      and the mean of the four reprojection errors when its gate is on. */
  lemma JudgeMeans(cfg: StreamConfig, m: Marker)
    ensures var v := Judge(cfg, m);
      var known := |cfg.tags.acceptIds| > 0 ==> m.id in cfg.tags.acceptIds;
      var shaped := known && |m.corners| == 4 && cfg.tags.SizeFor(m.id) > 0.0;
      var solved := shaped && m.pose.Some?;
      && (v.RejectedId? <==> !known)
      && (v.Uncounted? <==> known && !shaped)
      && (v.RejectedPnp? <==> shaped && !solved)
      && (v.RejectedRange? <==> solved && !InRange(cfg, m.pose.value.range))
      && (v.RejectedReproj? <==>
            && solved && InRange(cfg, m.pose.value.range)
            && cfg.detector.maxReproj > 0.0 && SumOfErrors(m.pose.value) > 4.0 * cfg.detector.maxReproj)
    ensures Judge(cfg, m).Accepted? ==>
      var d := Judge(cfg, m).d;
      && d.reproj * 4.0 == SumOfErrors(m.pose.value) && d.corners == m.corners && d.tagId == m.id
      && d.family == cfg.detector.family && d.size == cfg.tags.SizeFor(m.id)
  {
  }

  predicate InRange(cfg: StreamConfig, range: Number) {
    range.Finite? && cfg.detector.minRange <= range.v <= cfg.detector.maxRange
  }

  /** What every published detection is: an accepted id, a positive size, a range
      inside the gate, and an error inside its gate when the gate is on. */
  ghost predicate WithinGates(cfg: StreamConfig, d: Detection) {
    && cfg.tags.Accepts(d.tagId) && d.family == cfg.detector.family
    && d.size == cfg.tags.SizeFor(d.tagId) && d.size > 0.0
    && |d.t| == 3 && |d.corners| == 4
    && cfg.detector.minRange <= d.t[2] <= cfg.detector.maxRange
    && (cfg.detector.maxReproj > 0.0 ==> d.reproj <= cfg.detector.maxReproj)
  }

  /** A marker is published exactly when some detection within the gates carries
      its id, its corners and its solved pose. */
  lemma AcceptedExactly(cfg: StreamConfig, m: Marker)
    ensures Judge(cfg, m).Accepted? <==>
      exists d: Detection :: WithinGates(cfg, d) && d.tagId == m.id && d.corners == m.corners && m.pose.Some?
        && m.pose.value.range == Finite(d.t[2]) && d.reproj == MeanError(m.pose.value)
    ensures Judge(cfg, m).Accepted? ==> WithinGates(cfg, Judge(cfg, m).d)
    ensures Judge(cfg, m).Accepted? ==> Judge(cfg, m).d.t == [m.pose.value.tx, m.pose.value.ty, m.pose.value.range.v]
    ensures Judge(cfg, m).Accepted? ==> Judge(cfg, m).d.rotation == m.pose.value.rotation
  {
    if Judge(cfg, m).Accepted? {
      var d := Judge(cfg, m).d;
      assert WithinGates(cfg, d) && m.pose.value.range == Finite(d.t[2]);
    }
  }

  /** A range that is not positive can be published exactly when the configured
      gate lets one in; validate does not look at the gate. */
  lemma NonPositiveRangePossible(cfg: StreamConfig, id: int)
    requires cfg.tags.Accepts(id) && cfg.tags.SizeFor(id) > 0.0
    ensures (exists m: Marker :: m.id == id && Judge(cfg, m).Accepted? && Judge(cfg, m).d.t[2] <= 0.0) <==>
              cfg.detector.minRange <= 0.0 && cfg.detector.minRange <= cfg.detector.maxRange
  {
    if cfg.detector.minRange <= 0.0 && cfg.detector.minRange <= cfg.detector.maxRange {
      var o := Point(0.0, 0.0);
      var rotation: Matrix33 := [[1.0, 0.0, 0.0], [0.0, 1.0, 0.0], [0.0, 0.0, 1.0]];
      var m := Marker(id, [o, o, o, o],
                      Some(Pose(0.0, 0.0, Finite(cfg.detector.minRange), rotation, (0.0, 0.0, 0.0, 0.0))));
      assert m.id == id && Judge(cfg, m).Accepted? && Judge(cfg, m).d.t[2] <= 0.0;
    }
  }

  // ----- counters -----

  datatype Stats = Stats(
    decoded: nat, rejectedId: nat, rejectedPnp: nat, rejectedReproj: nat, rejectedRange: nat, accepted: nat)

  const NO_STATS := Stats(0, 0, 0, 0, 0, 0)

  /** Counter by counter, `sum` is `a` plus `b`. */
  ghost predicate AddUp(a: Stats, b: Stats, sum: Stats) {
    && a.decoded + b.decoded == sum.decoded
    && a.rejectedId + b.rejectedId == sum.rejectedId
    && a.rejectedPnp + b.rejectedPnp == sum.rejectedPnp
    && a.rejectedReproj + b.rejectedReproj == sum.rejectedReproj
    && a.rejectedRange + b.rejectedRange == sum.rejectedRange
    && a.accepted + b.accepted == sum.accepted
  }

  function Verdicts(cfg: StreamConfig, markers: seq<Marker>): (vs: seq<Verdict>)
    ensures |vs| == |markers|
  {
    seq(|markers|, i requires 0 <= i < |markers| => Judge(cfg, markers[i]))
  }

  function AcceptedOf(vs: seq<Verdict>): seq<Detection> {
    if vs == [] then []
    else AcceptedOf(vs[..|vs| - 1]) + if vs[|vs| - 1].Accepted? then [vs[|vs| - 1].d] else []
  }

  /** One verdict moves one counter. */
  function Counted(s: Stats, v: Verdict): Stats {
    match v
    case RejectedId => s.(rejectedId := s.rejectedId + 1)
    case Uncounted => s
    case RejectedPnp => s.(rejectedPnp := s.rejectedPnp + 1)
    case RejectedRange => s.(rejectedRange := s.rejectedRange + 1)
    case RejectedReproj => s.(rejectedReproj := s.rejectedReproj + 1)
    case Accepted(_) => s.(accepted := s.accepted + 1)
  }

  function Bumped(s: Stats, v: Verdict): Stats {
    Counted(s.(decoded := s.decoded + 1), v)
  }

  /** The counters a run of verdicts adds up to. */
  function TallyOf(vs: seq<Verdict>): Stats {
    if vs == [] then NO_STATS else Bumped(TallyOf(vs[..|vs| - 1]), vs[|vs| - 1])
  }

  function UncountedOf(vs: seq<Verdict>): nat {
    if vs == [] then 0 else UncountedOf(vs[..|vs| - 1]) + if vs[|vs| - 1].Uncounted? then 1 else 0
  }

  lemma TallyStep(vs: seq<Verdict>, v: Verdict, decoded: nat)
    ensures TallyOf(vs + [v]).decoded == TallyOf(vs).decoded + 1
    ensures TallyOf(vs + [v]).(decoded := decoded) == Counted(TallyOf(vs).(decoded := decoded), v)
  {
    assert (vs + [v])[..|vs|] == vs;
  }

  /** The state of the marker loop after `i` of the verdicts `vs`: `window` are the
      verdicts already in the live counters, `n` the markers announced. */
  ghost predicate SiftedTo(vs: seq<Verdict>, i: nat, window: seq<Verdict>, before: nat, out: seq<Detection>,
                           stats: Stats)
    requires i <= |vs|
  {
    && out == AcceptedOf(vs[..i])
    && TallyOf(window + vs[..i]).decoded == before + i
    && stats == TallyOf(window + vs[..i]).(decoded := before + |vs|)
  }

  lemma SiftedNext(vs: seq<Verdict>, i: nat, window: seq<Verdict>, before: nat, out: seq<Detection>, stats: Stats)
    requires i < |vs| && SiftedTo(vs, i, window, before, out, stats)
    ensures SiftedTo(vs, i + 1, window, before, out + (if vs[i].Accepted? then [vs[i].d] else []),
                     Counted(stats, vs[i]))
  {
    assert vs[..i + 1][..i] == vs[..i];
    assert window + vs[..i + 1] == (window + vs[..i]) + [vs[i]];
    TallyStep(window + vs[..i], vs[i], before + |vs|);
  }

  lemma AddUpBumped(a: Stats, b: Stats, sum: Stats, v: Verdict)
    requires AddUp(a, b, sum)
    ensures AddUp(a, Bumped(b, v), Bumped(sum, v))
  {
  }

  /** Verdicts counted in two parts count the same. */
  lemma {:induction false} TallyConcat(a: seq<Verdict>, b: seq<Verdict>)
    ensures AddUp(TallyOf(a), TallyOf(b), TallyOf(a + b))
    decreases |b|
  {
    if b == [] {
      assert a + b == a;
    } else {
      TallyConcat(a, b[..|b| - 1]);
      assert (a + b)[..|a + b| - 1] == a + b[..|b| - 1];
      AddUpBumped(TallyOf(a), TallyOf(b[..|b| - 1]), TallyOf(a + b[..|b| - 1]), b[|b| - 1]);
    }
  }

  /** Every decoded marker has exactly one fate, and `accepted` counts exactly the
      detections handed on. */
  lemma {:induction false} EveryMarkerHasOneFate(vs: seq<Verdict>)
    ensures var s := TallyOf(vs);
            && s.decoded == |vs| && s.accepted == |AcceptedOf(vs)|
            && s.decoded
               == s.rejectedId + s.rejectedPnp + s.rejectedReproj + s.rejectedRange + s.accepted + UncountedOf(vs)
  {
    if vs != [] {
      EveryMarkerHasOneFate(vs[..|vs| - 1]);
    }
  }

  /** What is handed on: the accepted detections, all of them, in the order of their
      markers. */
  lemma {:induction false} AcceptedInOrder(vs: seq<Verdict>) returns (at: seq<nat>)
    ensures Picks(vs, AcceptedOf(vs), at)
  {
    at := [];
    if vs != [] {
      var front, last := vs[..|vs| - 1], vs[|vs| - 1];
      at := AcceptedInOrder(front);
      assert vs == front + [last];
      hide Picks;
      PicksSnoc(front, AcceptedOf(front), at, last);
      if last.Accepted? {
        at := at + [|front|];
      }
    }
  }

  /** `out` are the detections of the accepted verdicts, which stand at `at`. */
  ghost predicate Picks(vs: seq<Verdict>, out: seq<Detection>, at: seq<nat>) {
    && |at| == |out|
    && (forall k :: 0 <= k < |at| ==> at[k] < |vs| && vs[at[k]] == Accepted(out[k]))
    && (forall k, l :: 0 <= k < l < |at| ==> at[k] < at[l])
    && (forall i :: 0 <= i < |vs| && vs[i].Accepted? ==> i in at)
  }

  lemma PicksSnoc(vs: seq<Verdict>, out: seq<Detection>, at: seq<nat>, v: Verdict)
    requires Picks(vs, out, at)
    ensures v.Accepted? ==> Picks(vs + [v], out + [v.d], at + [|vs|])
    ensures !v.Accepted? ==> Picks(vs + [v], out + [], at)
  {
    assert out + [] == out;
  }

  /** How many verdicts are of a kind. */
  ghost function CountIf(vs: seq<Verdict>, kind: Verdict -> bool): nat {
    |set i | 0 <= i < |vs| && kind(vs[i])|
  }

  lemma CountIfSnoc(vs: seq<Verdict>, v: Verdict, kind: Verdict -> bool)
    ensures CountIf(vs + [v], kind) == CountIf(vs, kind) + if kind(v) then 1 else 0
  {
    var all := vs + [v];
    var before, after := set i | 0 <= i < |vs| && kind(vs[i]), set i | 0 <= i < |all| && kind(all[i]);
    assert after == before + (if kind(v) then {|vs|} else {});
  }

  /** Every counter is the number of verdicts of its own kind. */
  lemma {:induction false} TallyCounts(vs: seq<Verdict>)
    ensures var s := TallyOf(vs);
      && s.decoded == |vs|
      && s.rejectedId == CountIf(vs, (v: Verdict) => v.RejectedId?)
      && s.rejectedPnp == CountIf(vs, (v: Verdict) => v.RejectedPnp?)
      && s.rejectedReproj == CountIf(vs, (v: Verdict) => v.RejectedReproj?)
      && s.rejectedRange == CountIf(vs, (v: Verdict) => v.RejectedRange?)
      && s.accepted == CountIf(vs, (v: Verdict) => v.Accepted?)
  {
    if vs != [] {
      var front, last := vs[..|vs| - 1], vs[|vs| - 1];
      TallyCounts(front);
      assert vs == front + [last];
      CountIfSnoc(front, last, (v: Verdict) => v.RejectedId?);
      CountIfSnoc(front, last, (v: Verdict) => v.RejectedPnp?);
      CountIfSnoc(front, last, (v: Verdict) => v.RejectedReproj?);
      CountIfSnoc(front, last, (v: Verdict) => v.RejectedRange?);
      CountIfSnoc(front, last, (v: Verdict) => v.Accepted?);
    }
  }

  lemma {:induction false} NoneUncounted(vs: seq<Verdict>)
    requires forall i :: 0 <= i < |vs| ==> !vs[i].Uncounted?
    ensures UncountedOf(vs) == 0
  {
    if vs != [] {
      NoneUncounted(vs[..|vs| - 1]);
    }
  }

  /** With a configuration validate accepts and four-cornered markers, nothing is
      dropped without being counted. */
  lemma NothingUncounted(app: AppConfig, i: nat, markers: seq<Marker>)
    requires Clean(app) && i < |app.streams|
    requires forall j :: 0 <= j < |markers| ==> |markers[j].corners| == 4
    ensures UncountedOf(Verdicts(app.streams[i], markers)) == 0
  {
    forall j | 0 <= j < |markers| ensures !Verdicts(app.streams[i], markers)[j].Uncounted? {
      CleanGuarantees(app, i, markers[j].id);
    }
    NoneUncounted(Verdicts(app.streams[i], markers));
  }

  /** Every detection handed on is within the gates. */
  lemma {:induction false} AcceptedWithinGates(cfg: StreamConfig, vs: seq<Verdict>)
    requires forall i :: 0 <= i < |vs| && vs[i].Accepted? ==> WithinGates(cfg, vs[i].d)
    ensures forall j :: 0 <= j < |AcceptedOf(vs)| ==> WithinGates(cfg, AcceptedOf(vs)[j])
  {
    if vs != [] {
      AcceptedWithinGates(cfg, vs[..|vs| - 1]);
    }
  }

  lemma DetectedWithinGates(cfg: StreamConfig, markers: seq<Marker>)
    ensures var out := AcceptedOf(Verdicts(cfg, markers));
            forall j :: 0 <= j < |out| ==> WithinGates(cfg, out[j])
  {
    forall i | 0 <= i < |markers| && Judge(cfg, markers[i]).Accepted?
      ensures WithinGates(cfg, Judge(cfg, markers[i]).d)
    {
      AcceptedExactly(cfg, markers[i]);
    }
    AcceptedWithinGates(cfg, Verdicts(cfg, markers));
  }

  /** The sizes at which a new initialisation is due: the first, and every change. */
  function Changes(sizes: seq<Size>): seq<Size> {
    if sizes == [] then []
    else
      var front, last := sizes[..|sizes| - 1], sizes[|sizes| - 1];
      Changes(front) + if front != [] && front[|front| - 1] == last then [] else [last]
  }

  lemma ChangesSnoc(sizes: seq<Size>, s: Size)
    ensures Changes(sizes + [s]) == Changes(sizes) + if sizes != [] && sizes[|sizes| - 1] == s then [] else [s]
  {
    assert (sizes + [s])[..|sizes|] == sizes;
  }

  ghost predicate AllAt(sizes: seq<Size>, s: Size) {
    forall k :: 0 <= k < |sizes| ==> sizes[k] == s
  }

  /** Frames of one size ask for one initialisation. */
  lemma {:induction false} OneSizeOneChange(sizes: seq<Size>, s: Size)
    requires AllAt(sizes, s)
    ensures Changes(sizes) == if sizes == [] then [] else [s]
  {
    if sizes != [] {
      OneSizeOneChange(sizes[..|sizes| - 1], s);
    }
  }

  lemma RawSnoc(camera: CameraConfig, before: seq<Size>, s: Size)
    ensures RawAfter(camera, before + [s]) == RawAfter(camera, before).Scaled(FactorX(camera, s), FactorY(camera, s))
  {
    assert (before + [s])[..|before|] == before;
  }

  lemma ScaledByOne(k: Intrinsics)
    ensures k.Scaled(1.0, 1.0) == k
  {
  }

  /** Why init refuses a stream that can never work, if it does. */
  function RefusalOf(cfg: StreamConfig): Option<Check> {
    if cfg.detector.family !in KNOWN_FAMILIES then Some(UnknownFamily)
    else if !cfg.camera.Valid() then Some(UnsetIntrinsics)
    else None
  }

  /** It refuses exactly an unknown family, and intrinsics of which one is not positive;
      the family first. */
  lemma RefusedExactly(cfg: StreamConfig)
    ensures var c := cfg.camera;
      RefusalOf(cfg) ==
        if !IsFamily(cfg.detector.family) then Some(UnknownFamily)
        else if c.fx <= 0.0 || c.fy <= 0.0 || c.cx <= 0.0 || c.cy <= 0.0 then Some(UnsetIntrinsics)
        else None
  {
    FamiliesKnown(cfg.detector.family);
  }

  /** No stream of a configuration validate accepts is refused. */
  lemma CleanIsNotRefused(app: AppConfig, i: nat)
    requires Clean(app) && i < |app.streams|
    ensures RefusalOf(app.streams[i]).None?
  {
    assert !Flaw(app, Stream(i, UnknownFamily)) && !Flaw(app, Stream(i, UnsetIntrinsics));
  }

  class Detector {
    const cfg: StreamConfig

    var initialized: bool
    var rescaled: bool
    var frame: Size
    var kRaw: Intrinsics
    var kSolve: Intrinsics
    var stats: Stats

    /** Sizes of the frames looked at, and of every initialisation; the verdict on
        every marker decoded, and how many of those the windows already handed out
        cover. */
    ghost var sizes: seq<Size>
    ghost var history: seq<Size>
    ghost var seen: seq<Verdict>
    ghost var taken: nat

    ghost predicate Valid()
      reads this
    {
      && history == Changes(sizes)
      && (initialized <==> sizes != [])
      && (initialized ==> frame == sizes[|sizes| - 1])
      && kRaw == RawAfter(cfg.camera, history)
      && (initialized && !cfg.camera.undistort ==> kSolve == kRaw)
      && taken <= |seen| && stats == TallyOf(seen[taken..])
    }

    constructor (cfg: StreamConfig)
      ensures Valid() && this.cfg == cfg && sizes == [] && seen == [] && taken == 0
    {
      this.cfg := cfg;
      initialized, rescaled, frame := false, false, Size(0, 0);
      kRaw, kSolve := Configured(cfg.camera), Configured(cfg.camera);
      stats, taken, sizes, history, seen := NO_STATS, 0, [], [], [];
    }

    /** Called on the first frame and on a new size. `rectified` stands for the
        matrix OpenCV computes when undistorting. */
    method LazyInit(size: Size, rectified: Intrinsics)
      requires Valid() && (!initialized || size != frame)
      modifies this`frame, this`kRaw, this`kSolve, this`rescaled, this`initialized, this`sizes, this`history
      ensures Valid() && initialized && frame == size
      ensures sizes == old(sizes) + [size] && history == old(history) + [size]
      ensures kSolve == if cfg.camera.undistort then rectified else kRaw
      ensures rescaled == (old(rescaled) || Mismatch(cfg.camera, size))
      ensures Rescaled(cfg.camera, old(kRaw), kRaw, size)
    {
      hide Changes, TallyOf, RawAfter, Configured, Intrinsics.Scaled, Rescaled, FactorX, FactorY;
      FactorsOf(cfg.camera, size);
      ScaledIsRescaled(cfg.camera, kRaw, size);
      ChangesSnoc(sizes, size);
      sizes := sizes + [size];
      frame := size;
      if Mismatch(cfg.camera, size) {
        var sx := size.w as real / cfg.camera.calibWidth as real;
        var sy := size.h as real / cfg.camera.calibHeight as real;
        kRaw := kRaw.Scaled(sx, sy);
        rescaled := true;
      }
      kSolve := if cfg.camera.undistort then rectified else kRaw;
      initialized := true;
      RawSnoc(cfg.camera, history, size);
      ScaledByOne(RawAfter(cfg.camera, history));
      history := history + [size];
    }

    /** Clears and fills `out`: the accepted markers, in order. */
    method Detect(size: Size, empty: bool, markers: seq<Marker>, rectified: Intrinsics) returns (out: seq<Detection>)
      requires Valid()
      modifies this
      ensures Valid()
      ensures out == if empty then [] else AcceptedOf(Verdicts(cfg, markers))
      ensures seen == if empty then old(seen) else old(seen) + Verdicts(cfg, markers)
      ensures taken == old(taken)
      ensures sizes == if empty then old(sizes) else old(sizes) + [size]
    {
      out := [];
      if empty {
        return;
      }
      if !initialized || size != frame {
        LazyInit(size, rectified);
      } else {
        ChangesSnoc(sizes, size);
        sizes := sizes + [size];
      }
      out := Sift(markers);
    }

    /** The gate chain over every marker of a frame. */
    method Sift(markers: seq<Marker>) returns (out: seq<Detection>)
      requires Valid()
      modifies this`stats, this`seen
      ensures Valid()
      ensures out == AcceptedOf(Verdicts(cfg, markers)) && seen == old(seen) + Verdicts(cfg, markers)
    {
      hide Judge, Counted, RawAfter;
      out := [];
      ghost var vs, window := Verdicts(cfg, markers), seen[taken..];
      ghost var before := stats.decoded;
      stats := stats.(decoded := stats.decoded + |markers|);
      assert window + vs[..0] == window;
      for i := 0 to |markers|
        modifies this`stats
        invariant SiftedTo(vs, i, window, before, out, stats)
      {
        var v := Judge(cfg, markers[i]);
        SiftedNext(vs, i, window, before, out, stats);
        stats := Counted(stats, v);
        out := if v.Accepted? then out + [v.d] else out + [];
      }
      assert vs[..|markers|] == vs;
      assert (seen + vs)[taken..] == window + vs;
      seen := seen + vs;
    }

    method TakeStats() returns (s: Stats)
      requires Valid()
      modifies this`stats, this`taken
      ensures Valid()
      ensures s == TallyOf(seen[old(taken)..]) && taken == |seen| && stats == NO_STATS
    {
      s := stats;
      stats := NO_STATS;
      taken := |seen|;
    }
  }

  // ----- what the rescale means -----

  /** With a calibration size on record, the horizontal entries of `after` are to those
      of `before` as the frame's width to the calibrated one, the vertical ones as the
      heights; without one they are the same. */
  predicate Rescaled(camera: CameraConfig, before: Intrinsics, after: Intrinsics, s: Size) {
    if camera.calibWidth > 0 && camera.calibHeight > 0 then
      && after.fx * camera.calibWidth as real == before.fx * s.w as real
      && after.cx * camera.calibWidth as real == before.cx * s.w as real
      && after.fy * camera.calibHeight as real == before.fy * s.h as real
      && after.cy * camera.calibHeight as real == before.cy * s.h as real
    else after == before
  }

  lemma FactorsOf(camera: CameraConfig, s: Size)
    ensures Mismatch(camera, s) ==>
      && FactorX(camera, s) == s.w as real / camera.calibWidth as real
      && FactorY(camera, s) == s.h as real / camera.calibHeight as real
    ensures !Mismatch(camera, s) ==> FactorX(camera, s) == FactorY(camera, s) == 1.0
  {
  }

  /** The factors are the ratios of the sizes. */
  lemma FactorsMean(camera: CameraConfig, s: Size)
    ensures camera.calibWidth > 0 && camera.calibHeight > 0 ==>
      && FactorX(camera, s) * camera.calibWidth as real == s.w as real
      && FactorY(camera, s) * camera.calibHeight as real == s.h as real
    ensures !(camera.calibWidth > 0 && camera.calibHeight > 0) ==> FactorX(camera, s) == FactorY(camera, s) == 1.0
  {
  }

  lemma ScaledEntry(a: real, f: real, c: real, w: real)
    requires f * c == w
    ensures Times(a, f) * c == a * w
  {
    assert Times(a, f) * c == a * (f * c);
  }

  lemma ScaledIsRescaled(camera: CameraConfig, k: Intrinsics, s: Size)
    ensures Rescaled(camera, k, k.Scaled(FactorX(camera, s), FactorY(camera, s)), s)
  {
    FactorsMean(camera, s);
    hide FactorX, FactorY, Times;
    if camera.calibWidth > 0 && camera.calibHeight > 0 {
      ScaledEntry(k.fx, FactorX(camera, s), camera.calibWidth as real, s.w as real);
      ScaledEntry(k.cx, FactorX(camera, s), camera.calibWidth as real, s.w as real);
      ScaledEntry(k.fy, FactorY(camera, s), camera.calibHeight as real, s.h as real);
      ScaledEntry(k.cy, FactorY(camera, s), camera.calibHeight as real, s.h as real);
    } else {
      ScaledByOne(k);
    }
  }

  /** The configured intrinsics at this frame size. */
  function Ideal(camera: CameraConfig, s: Size): Intrinsics {
    Configured(camera).Scaled(FactorX(camera, s), FactorY(camera, s))
  }

  lemma FactorsPositive(camera: CameraConfig, s: Size)
    requires s.w > 0 && s.h > 0
    ensures FactorX(camera, s) > 0.0 && FactorY(camera, s) > 0.0
  {
  }

  lemma TimesOneExactly(k: real, p: real, f: real)
    requires k > 0.0 && f > 0.0
    ensures Times(k, Times(p, f)) == Times(k, f) <==> p == 1.0
  {
    var u := k * f;
    assert u > 0.0;
    assert Times(k, Times(p, f)) == p * u;
    if p * u == u {
      assert (p - 1.0) * u == 0.0;
    }
  }

  lemma SameScaleExactly(k: Intrinsics, p: real, q: real, f: real, g: real)
    requires k.fx > 0.0 && k.fy > 0.0 && f > 0.0 && g > 0.0
    ensures k.Scaled(p, q).Scaled(f, g) == k.Scaled(f, g) <==> p == 1.0 && q == 1.0
  {
    ScaledAgain(k, p, q, f, g);
    TimesOneExactly(k.fx, p, f);
    TimesOneExactly(k.fy, q, g);
    if p == 1.0 && q == 1.0 {
      ScaledByOne(k);
    }
  }

  /** Because the matrix is scaled in place, the intrinsics in use are the right
      ones for the current frame size exactly when the factors of all earlier
      initialisations multiply to one: always on the first size, and again only
      if the earlier sizes cancel out. */
  lemma RescaleRightExactly(camera: CameraConfig, before: seq<Size>, s: Size)
    requires camera.Valid() && s.w > 0 && s.h > 0
    ensures RawAfter(camera, before + [s]) == Ideal(camera, s) <==>
              ProductX(camera, before) == 1.0 && ProductY(camera, before) == 1.0
  {
    RawSnoc(camera, before, s);
    RawIsProduct(camera, before);
    FactorsPositive(camera, s);
    SameScaleExactly(Configured(camera), ProductX(camera, before), ProductY(camera, before),
                     FactorX(camera, s), FactorY(camera, s));
  }

  function Widths(history: seq<Size>): real {
    if history == [] then 1.0 else Times(Widths(history[..|history| - 1]), history[|history| - 1].w as real)
  }

  function Heights(history: seq<Size>): real {
    if history == [] then 1.0 else Times(Heights(history[..|history| - 1]), history[|history| - 1].h as real)
  }

  function Power(b: real, n: nat): real {
    if n == 0 then 1.0 else Times(Power(b, n - 1), b)
  }

  lemma {:induction false} PowerPositive(b: real, n: nat)
    requires b > 0.0
    ensures Power(b, n) > 0.0
  {
    if n > 0 {
      PowerPositive(b, n - 1);
    }
  }

  lemma ProductStep(p: real, c: real, w: real, f: real, b: real, v: real)
    requires Times(p, c) == w && f * b == v
    ensures Times(Times(p, f), Times(c, b)) == Times(w, v)
  {
    assert Times(Times(p, f), Times(c, b)) == (p * c) * (f * b);
  }

  /** Over any history of sizes the factors multiply to the ratio of all widths, and of
      all heights, to as many calibrated ones. */
  lemma {:induction false} ProductsOfSizes(camera: CameraConfig, history: seq<Size>)
    requires camera.calibWidth > 0 && camera.calibHeight > 0
    ensures Times(ProductX(camera, history), Power(camera.calibWidth as real, |history|)) == Widths(history)
    ensures Times(ProductY(camera, history), Power(camera.calibHeight as real, |history|)) == Heights(history)
  {
    if history != [] {
      var before, s := history[..|history| - 1], history[|history| - 1];
      ProductsOfSizes(camera, before);
      FactorsMean(camera, s);
      hide Times, FactorX, FactorY;
      ProductStep(ProductX(camera, before), Power(camera.calibWidth as real, |before|), Widths(before),
                  FactorX(camera, s), camera.calibWidth as real, s.w as real);
      ProductStep(ProductY(camera, before), Power(camera.calibHeight as real, |before|), Heights(before),
                  FactorY(camera, s), camera.calibHeight as real, s.h as real);
    }
  }

  lemma OneByPower(p: real, c: real, w: real)
    requires c > 0.0 && Times(p, c) == w
    ensures p == 1.0 <==> w == c
  {
    if w == c {
      assert (p - 1.0) * c == 0.0;
    }
  }

  /** Said with sizes alone: the intrinsics are right for the current frame size exactly
      when the widths of all earlier initialisations multiply to as many calibrated
      widths, and the heights likewise. */
  lemma RightBySizesExactly(camera: CameraConfig, before: seq<Size>, s: Size)
    requires camera.Valid() && camera.calibWidth > 0 && camera.calibHeight > 0 && s.w > 0 && s.h > 0
    ensures RawAfter(camera, before + [s]) == Ideal(camera, s) <==>
      && Widths(before) == Power(camera.calibWidth as real, |before|)
      && Heights(before) == Power(camera.calibHeight as real, |before|)
  {
    hide Times, RawAfter, Ideal, ProductX, ProductY, Widths, Heights, Power;
    RescaleRightExactly(camera, before, s);
    ProductsOfSizes(camera, before);
    PowerPositive(camera.calibWidth as real, |before|);
    PowerPositive(camera.calibHeight as real, |before|);
    OneByPower(ProductX(camera, before), Power(camera.calibWidth as real, |before|), Widths(before));
    OneByPower(ProductY(camera, before), Power(camera.calibHeight as real, |before|), Heights(before));
  }

  lemma OneInitialisation(camera: CameraConfig, s: Size)
    ensures RawAfter(camera, [s]) == Ideal(camera, s)
  {
    assert [s][..0] == [];
  }

  /** However many frames of one size a detector has looked at, it initialised once,
      and without undistortion it solves with the intrinsics for that size: every
      point projects to its calibration pixel scaled by the size ratio. */
  lemma OneSizeIsRight(d: Detector, s: Size, x: real, y: real, z: real)
    requires d.Valid() && !d.cfg.camera.undistort && d.sizes != [] && AllAt(d.sizes, s) && z != 0.0
    ensures d.history == [s] && d.kSolve == Ideal(d.cfg.camera, s)
    ensures var camera := d.cfg.camera;
            Rescaled(camera, Intrinsics(camera.fx, camera.fy, camera.cx, camera.cy), d.kSolve, s)
    ensures d.kSolve.ProjectU(x, z) == FactorX(d.cfg.camera, s) * Configured(d.cfg.camera).ProjectU(x, z)
    ensures d.kSolve.ProjectV(y, z) == FactorY(d.cfg.camera, s) * Configured(d.cfg.camera).ProjectV(y, z)
  {
    hide Rescaled, FactorX, FactorY, Intrinsics.ProjectU, Intrinsics.ProjectV, TallyOf;
    OneSizeOneChange(d.sizes, s);
    OneInitialisation(d.cfg.camera, s);
    ScaledIsRescaled(d.cfg.camera, Configured(d.cfg.camera), s);
    ScaledProjection(Configured(d.cfg.camera), FactorX(d.cfg.camera, s), FactorY(d.cfg.camera, s), x, y, z);
  }

  /** A stream calibrated at 1280x720 that first negotiates 640x360 and then
      1280x720 keeps the halved intrinsics. */
  lemma RescaleCompounds(camera: CameraConfig)
    requires camera.Valid() && camera.calibWidth == 1280 && camera.calibHeight == 720
    ensures RawAfter(camera, [Size(640, 360), Size(1280, 720)]) != Ideal(camera, Size(1280, 720))
  {
    var before := [Size(640, 360)];
    assert before[..0] == [];
    assert ProductX(camera, before) == 0.5;
    assert before + [Size(1280, 720)] == [Size(640, 360), Size(1280, 720)];
    RescaleRightExactly(camera, before, Size(1280, 720));
  }
}
