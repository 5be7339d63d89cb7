// Self-healing configuration at the level of the YAML tree
// (src/app_config.cpp: Healer, parse*, loadFromFile, writeToFile).
//
// The text of a scalar is read and printed through a codec, so every statement
// holds for any printer and reader that agree with each other.
module YamlHeal {
  import opened Wrappers
  import opened AppConfigs

  // ----- trees -----

  /** The keys the program knows, and every other one. */
  datatype Key =
    | K_streams | K_camera_id | K_gst | K_frame_width | K_frame_height | K_fps | K_watchdog_timeout_sec
    | K_detect_fps | K_exit_on_eos | K_camera | K_detector | K_tags | K_fx | K_fy | K_cx | K_cy
    | K_distortion_model | K_dist_coeffs | K_undistort | K_calib_width | K_calib_height | K_family
    | K_max_reproj_error_px | K_min_range_m | K_max_range_m | K_params | K_adaptive_thresh_win_size_min
    | K_adaptive_thresh_win_size_max | K_adaptive_thresh_win_size_step | K_min_marker_perimeter_rate
    | K_max_marker_perimeter_rate | K_polygonal_approx_accuracy_rate | K_corner_refine
    | K_corner_refine_win_size | K_corner_refine_max_iterations | K_corner_refine_min_accuracy
    | K_error_correction_rate | K_apriltag_quad_decimate | K_detect_inverted_marker | K_default_size_m | K_sizes
    | K_accept_ids | K_id | K_size_m | K_udp | K_enabled | K_dest_ip | K_dest_port | K_heartbeat_hz | K_logging
    | K_stats_interval_sec | K_verbose
    | Other(name: string)

  datatype Node =
    | Undefined | Null | Scalar(text: string) | Sequence(items: seq<Node>) | Mapping(entries: map<Key, Node>)

  /** n[key]; undefined unless `n` is a map that has the key. */
  function Lookup(n: Node, key: Key): Node {
    if n.Mapping? && key in n.entries then n.entries[key] else Undefined
  }

  /** Scalar conversions; `nullText` is what a null node reads as, if anything. */
  datatype Codec = Codec(
    asInt: string -> Option<Int32>, asReal: string -> Option<real>, asBool: string -> Option<bool>,
    printInt: Int32 -> string, printReal: real -> string, printBool: bool -> string, nullText: Option<string>)

  /** The number reads back from what is printed of it. */
  ghost predicate Prints(c: Codec, x: real) {
    c.asReal(c.printReal(x)) == Some(x)
  }

  /** The defaults of the configuration's numbers. */
  const DEFAULT_REALS: set<real> := {0.0, 0.03, 0.05, 0.1, 0.3, 0.6, 3.0, 4.0, 6.0, 10.0, 100.0}

  /** Integers and switches read back from what is printed of them, and so does every
      number that can be read from some text, or is a default. Other numbers need not:
      there are more reals than texts. */
  ghost predicate Lossless(c: Codec) {
    && (forall i: Int32 :: c.asInt(c.printInt(i)) == Some(i))
    && (forall b: bool :: c.asBool(c.printBool(b)) == Some(b))
    && (forall t: string :: c.asReal(t).Some? ==> Prints(c, c.asReal(t).value))
    && (forall x: real :: x in DEFAULT_REALS ==> Prints(c, x))
  }

  datatype ConfigError =
    | WrongType(key: Key) | BadElement | BadSubscript | MissingTagId | NoStreamList | DuplicateCamera(id: string)

  // ----- reading one value -----

  predicate Absent(n: Node, key: Key) {
    Lookup(n, key).Undefined?
  }

  function AsInt(c: Codec, n: Node): Option<Int32> {
    if n.Scalar? then c.asInt(n.text) else None
  }

  function AsReal(c: Codec, n: Node): Option<real> {
    if n.Scalar? then c.asReal(n.text) else None
  }

  function AsBool(c: Codec, n: Node): Option<bool> {
    if n.Scalar? then c.asBool(n.text) else None
  }

  function AsText(c: Codec, n: Node): Option<string> {
    if n.Scalar? then Some(n.text) else if n.Null? then c.nullText else None
  }

  /** h.get: an absent key is its default, a present one must convert. */
  function ReadInt(c: Codec, n: Node, key: Key, def: Int32): Option<Int32> {
    if Absent(n, key) then Some(def) else AsInt(c, Lookup(n, key))
  }

  function ReadReal(c: Codec, n: Node, key: Key, def: real): Option<real> {
    if Absent(n, key) then Some(def) else AsReal(c, Lookup(n, key))
  }

  function ReadBool(c: Codec, n: Node, key: Key, def: bool): Option<bool> {
    if Absent(n, key) then Some(def) else AsBool(c, Lookup(n, key))
  }

  function ReadText(c: Codec, n: Node, key: Key, def: string): Option<string> {
    if Absent(n, key) then Some(def) else AsText(c, Lookup(n, key))
  }

  // ----- what a document means -----

  function RealItems(c: Codec, items: seq<Node>): Option<seq<real>> {
    if items == [] then Some([])
    else
      var first, rest := AsReal(c, items[0]), RealItems(c, items[1..]);
      if first.Some? && rest.Some? then Some([first.value] + rest.value) else None
  }

  function IntItems(c: Codec, items: seq<Node>): Option<seq<Int32>> {
    if items == [] then Some([])
    else
      var first, rest := AsInt(c, items[0]), IntItems(c, items[1..]);
      if first.Some? && rest.Some? then Some([first.value] + rest.value) else None
  }

  const DEFAULT_COEFFS := [0.0, 0.0, 0.0, 0.0, 0.0]

  /** A present value that is not a list silently reads as the default. */
  function ParseCoeffs(c: Codec, n: Node): Option<seq<real>> {
    var list := Lookup(n, K_dist_coeffs);
    if list.Sequence? then RealItems(c, list.items) else Some(DEFAULT_COEFFS)
  }

  datatype Thresholds = Thresholds(
    winMin: Int32, winMax: Int32, winStep: Int32, minPerimeter: real, maxPerimeter: real, polyAccuracy: real)

  datatype Refinement = Refinement(
    cornerRefine: string, refineWin: Int32, refineIterations: Int32, refineAccuracy: real, errorCorrection: real,
    quadDecimate: real, inverted: bool)

  function ParseThresholds(c: Codec, n: Node): Option<Thresholds> {
    var winMin := ReadInt(c, n, K_adaptive_thresh_win_size_min, 3);
    var winMax := ReadInt(c, n, K_adaptive_thresh_win_size_max, 23);
    var winStep := ReadInt(c, n, K_adaptive_thresh_win_size_step, 10);
    var minPerimeter := ReadReal(c, n, K_min_marker_perimeter_rate, 0.03);
    var maxPerimeter := ReadReal(c, n, K_max_marker_perimeter_rate, 4.0);
    var polyAccuracy := ReadReal(c, n, K_polygonal_approx_accuracy_rate, 0.03);
    if winMin.Some? && winMax.Some? && winStep.Some? && minPerimeter.Some? && maxPerimeter.Some? &&
       polyAccuracy.Some? then
      Some(Thresholds(winMin.value, winMax.value, winStep.value, minPerimeter.value, maxPerimeter.value,
        polyAccuracy.value))
    else None
  }

  function ParseRefinement(c: Codec, n: Node): Option<Refinement> {
    var cornerRefine := ReadText(c, n, K_corner_refine, "subpix");
    var refineWin := ReadInt(c, n, K_corner_refine_win_size, 5);
    var refineIterations := ReadInt(c, n, K_corner_refine_max_iterations, 30);
    var refineAccuracy := ReadReal(c, n, K_corner_refine_min_accuracy, 0.1);
    var errorCorrection := ReadReal(c, n, K_error_correction_rate, 0.6);
    var quadDecimate := ReadReal(c, n, K_apriltag_quad_decimate, 0.0);
    var inverted := ReadBool(c, n, K_detect_inverted_marker, false);
    if cornerRefine.Some? && refineWin.Some? && refineIterations.Some? && refineAccuracy.Some? &&
       errorCorrection.Some? && quadDecimate.Some? && inverted.Some? then
      Some(Refinement(cornerRefine.value, refineWin.value, refineIterations.value, refineAccuracy.value,
        errorCorrection.value, quadDecimate.value, inverted.value))
    else None
  }

  function ParseAruco(c: Codec, n: Node): Option<ArucoParams> {
    var a, b := ParseThresholds(c, n), ParseRefinement(c, n);
    if a.Some? && b.Some? then Some(ArucoOf(a.value, b.value)) else None
  }

  function ArucoOf(a: Thresholds, b: Refinement): ArucoParams {
    ArucoParams(a.winMin, a.winMax, a.winStep, a.minPerimeter, a.maxPerimeter, a.polyAccuracy, b.cornerRefine,
      b.refineWin, b.refineIterations, b.refineAccuracy, b.errorCorrection, b.quadDecimate, b.inverted)
  }

  function ParseCamera(c: Codec, n: Node): Option<CameraConfig> {
    var fx := ReadReal(c, n, K_fx, 0.0);
    var fy := ReadReal(c, n, K_fy, 0.0);
    var cx := ReadReal(c, n, K_cx, 0.0);
    var cy := ReadReal(c, n, K_cy, 0.0);
    var model := ReadText(c, n, K_distortion_model, "pinhole");
    var distCoeffs := ParseCoeffs(c, n);
    var undistort := ReadBool(c, n, K_undistort, false);
    var calibWidth := ReadInt(c, n, K_calib_width, 0);
    var calibHeight := ReadInt(c, n, K_calib_height, 0);
    if fx.Some? && fy.Some? && cx.Some? && cy.Some? && model.Some? && distCoeffs.Some? && undistort.Some? &&
       calibWidth.Some? && calibHeight.Some? then
      Some(CameraConfig(fx.value, fy.value, cx.value, cy.value, model.value, distCoeffs.value, undistort.value,
        calibWidth.value, calibHeight.value))
    else None
  }

  function ParseDetector(c: Codec, n: Node): Option<DetectorConfig> {
    var family := ReadText(c, n, K_family, "apriltag_36h11");
    var maxReproj := ReadReal(c, n, K_max_reproj_error_px, 6.0);
    var minRange := ReadReal(c, n, K_min_range_m, 0.05);
    var maxRange := ReadReal(c, n, K_max_range_m, 100.0);
    var params := ParseAruco(c, Lookup(n, K_params));
    if family.Some? && maxReproj.Some? && minRange.Some? && maxRange.Some? && params.Some? then
      Some(DetectorConfig(family.value, maxReproj.value, minRange.value, maxRange.value, params.value))
    else None
  }

  /** One entry of tags.sizes: a missing size is the default, a missing or
      negative id is an error. */
  function ParseTagSize(c: Codec, e: Node, default: real): Option<TagSize> {
    var id, size := ReadInt(c, e, K_id, -1), ReadReal(c, e, K_size_m, default);
    if !e.Scalar? && id.Some? && size.Some? && id.value >= 0 then Some(TagSize(id.value, size.value)) else None
  }

  function TagSizes(c: Codec, items: seq<Node>, default: real): Option<seq<TagSize>> {
    if items == [] then Some([])
    else
      var first, rest := ParseTagSize(c, items[0], default), TagSizes(c, items[1..], default);
      if first.Some? && rest.Some? then Some([first.value] + rest.value) else None
  }

  function ParseSizes(c: Codec, n: Node, default: real): Option<seq<TagSize>> {
    var list := Lookup(n, K_sizes);
    if list.Sequence? then TagSizes(c, list.items, default) else Some([])
  }

  function ParseIds(c: Codec, n: Node): Option<seq<Int32>> {
    var list := Lookup(n, K_accept_ids);
    if list.Sequence? then IntItems(c, list.items) else Some([])
  }

  function ParseTags(c: Codec, n: Node): Option<TagsConfig> {
    var defaultSize := ReadReal(c, n, K_default_size_m, 0.30);
    if defaultSize.None? then None
    else
      var sizes, acceptIds := ParseSizes(c, n, defaultSize.value), ParseIds(c, n);
      if sizes.Some? && acceptIds.Some? then Some(TagsConfig(defaultSize.value, sizes.value, acceptIds.value)) else None
  }

  datatype Sections = Sections(camera: CameraConfig, detector: DetectorConfig, tags: TagsConfig)

  function ParseSections(c: Codec, n: Node): Option<Sections> {
    var camera, detector := ParseCamera(c, Lookup(n, K_camera)), ParseDetector(c, Lookup(n, K_detector));
    var tags := ParseTags(c, Lookup(n, K_tags));
    if camera.Some? && detector.Some? && tags.Some? then
      Some(Sections(camera.value, detector.value, tags.value))
    else None
  }

  /** A stream's own keys. */
  datatype StreamKeys = StreamKeys(
    cameraId: string, gst: string, frameWidth: Int32, frameHeight: Int32, fps: Int32, watchdogSec: real,
    detectFps: real, exitOnEos: bool)

  function ParseStreamKeys(c: Codec, n: Node): Option<StreamKeys> {
    var cameraId := ReadText(c, n, K_camera_id, "down");
    var gst := ReadText(c, n, K_gst, "");
    var frameWidth := ReadInt(c, n, K_frame_width, 1280);
    var frameHeight := ReadInt(c, n, K_frame_height, 720);
    var fps := ReadInt(c, n, K_fps, 30);
    var watchdogSec := ReadReal(c, n, K_watchdog_timeout_sec, 3.0);
    var detectFps := ReadReal(c, n, K_detect_fps, 0.0);
    var exitOnEos := ReadBool(c, n, K_exit_on_eos, false);
    if cameraId.Some? && gst.Some? && frameWidth.Some? && frameHeight.Some? && fps.Some? &&
       watchdogSec.Some? && detectFps.Some? && exitOnEos.Some? then
      Some(StreamKeys(cameraId.value, gst.value, frameWidth.value, frameHeight.value, fps.value, watchdogSec.value,
        detectFps.value, exitOnEos.value))
    else None
  }

  function StreamOf(k: StreamKeys, sections: Sections): StreamConfig {
    StreamConfig(k.cameraId, k.gst, k.frameWidth, k.frameHeight, k.fps, k.watchdogSec, k.detectFps, k.exitOnEos,
      sections.camera, sections.detector, sections.tags)
  }

  function ParseStream(c: Codec, n: Node): Option<StreamConfig> {
    var k, sections := ParseStreamKeys(c, n), ParseSections(c, n);
    if k.Some? && sections.Some? then Some(StreamOf(k.value, sections.value)) else None
  }

  function ParseStreams(c: Codec, items: seq<Node>): Option<seq<StreamConfig>> {
    if items == [] then Some([])
    else
      var first, rest := ParseStream(c, items[0]), ParseStreams(c, items[1..]);
      if first.Some? && rest.Some? then Some([first.value] + rest.value) else None
  }

  /** static_cast<uint16_t>: the value modulo 2^16. */
  function ToPort(i: Int32): Port {
    i % 0x1_0000
  }

  function ParseUdp(c: Codec, n: Node): Option<UdpConfig> {
    var enabled := ReadBool(c, n, K_enabled, true);
    var destIp := ReadText(c, n, K_dest_ip, "127.0.0.1");
    var destPort := ReadInt(c, n, K_dest_port, 5602);
    var heartbeatHz := ReadReal(c, n, K_heartbeat_hz, 10.0);
    if enabled.Some? && destIp.Some? && destPort.Some? && heartbeatHz.Some? then
      Some(UdpConfig(enabled.value, destIp.value, ToPort(destPort.value), heartbeatHz.value))
    else None
  }

  function ParseLogging(c: Codec, n: Node): Option<LoggingConfig> {
    var statsIntervalSec := ReadInt(c, n, K_stats_interval_sec, 5);
    var verbose := ReadBool(c, n, K_verbose, false);
    if statsIntervalSec.Some? && verbose.Some? then
      Some(LoggingConfig(statsIntervalSec.value, verbose.value))
    else None
  }

  /** The first camera id that repeats an earlier one. */
  predicate HasDuplicate(streams: seq<StreamConfig>) {
    exists i, j :: 0 <= i < j < |streams| && streams[i].cameraId == streams[j].cameraId
  }

  predicate HasStreamList(root: Node) {
    var list := Lookup(root, K_streams);
    list.Sequence? && list.items != []
  }

  /** `r` is what loading `root` yields, the healed flag aside. */
  ghost predicate Loads(c: Codec, root: Node, cfg: AppConfig) {
    && HasStreamList(root)
    && ParseStreams(c, Lookup(root, K_streams).items) == Some(cfg.streams)
    && !HasDuplicate(cfg.streams)
    && ParseUdp(c, Lookup(root, K_udp)) == Some(cfg.udp)
    && ParseLogging(c, Lookup(root, K_logging)) == Some(cfg.logging)
  }

  // ----- which key fills which field, and what stands in for it -----

  ghost predicate IntField(c: Codec, n: Node, key: Key, def: int, v: int) {
    if Absent(n, key) then v == def else AsInt(c, Lookup(n, key)).Some? && AsInt(c, Lookup(n, key)).value == v
  }

  ghost predicate RealField(c: Codec, n: Node, key: Key, def: real, v: real) {
    if Absent(n, key) then v == def else AsReal(c, Lookup(n, key)) == Some(v)
  }

  ghost predicate BoolField(c: Codec, n: Node, key: Key, def: bool, v: bool) {
    if Absent(n, key) then v == def else AsBool(c, Lookup(n, key)) == Some(v)
  }

  ghost predicate TextField(c: Codec, n: Node, key: Key, def: string, v: string) {
    if Absent(n, key) then v == def else AsText(c, Lookup(n, key)) == Some(v)
  }

  lemma ThresholdFields(c: Codec, n: Node, p: ArucoParams)
    requires ParseAruco(c, n) == Some(p)
    ensures IntField(c, n, K_adaptive_thresh_win_size_min, 3, p.winMin)
    ensures IntField(c, n, K_adaptive_thresh_win_size_max, 23, p.winMax)
    ensures IntField(c, n, K_adaptive_thresh_win_size_step, 10, p.winStep)
    ensures RealField(c, n, K_min_marker_perimeter_rate, 0.03, p.minPerimeter)
    ensures RealField(c, n, K_max_marker_perimeter_rate, 4.0, p.maxPerimeter)
    ensures RealField(c, n, K_polygonal_approx_accuracy_rate, 0.03, p.polyAccuracy)
  {
    hide Absent, AsInt, AsReal, Lookup;
  }

  lemma RefinementFields(c: Codec, n: Node, p: ArucoParams)
    requires ParseAruco(c, n) == Some(p)
    ensures TextField(c, n, K_corner_refine, "subpix", p.cornerRefine)
    ensures IntField(c, n, K_corner_refine_win_size, 5, p.refineWin)
    ensures IntField(c, n, K_corner_refine_max_iterations, 30, p.refineIterations)
    ensures RealField(c, n, K_corner_refine_min_accuracy, 0.1, p.refineAccuracy)
    ensures RealField(c, n, K_error_correction_rate, 0.6, p.errorCorrection)
    ensures RealField(c, n, K_apriltag_quad_decimate, 0.0, p.quadDecimate)
    ensures BoolField(c, n, K_detect_inverted_marker, false, p.inverted)
  {
    hide Absent, AsInt, AsReal, AsBool, AsText, Lookup;
  }

  lemma CameraFields(c: Codec, n: Node, p: CameraConfig)
    requires ParseCamera(c, n) == Some(p)
    ensures RealField(c, n, K_fx, 0.0, p.fx) && RealField(c, n, K_fy, 0.0, p.fy)
    ensures RealField(c, n, K_cx, 0.0, p.cx) && RealField(c, n, K_cy, 0.0, p.cy)
    ensures TextField(c, n, K_distortion_model, "pinhole", p.model) && BoolField(c, n, K_undistort, false, p.undistort)
    ensures IntField(c, n, K_calib_width, 0, p.calibWidth) && IntField(c, n, K_calib_height, 0, p.calibHeight)
    ensures ParseCoeffs(c, n) == Some(p.distCoeffs)
  {
    hide Absent, AsInt, AsReal, AsBool, AsText, Lookup, ParseCoeffs;
  }

  lemma {:induction false} RealItemsMean(c: Codec, items: seq<Node>, xs: seq<real>)
    requires RealItems(c, items) == Some(xs)
    ensures |xs| == |items| && forall i :: 0 <= i < |items| ==> AsReal(c, items[i]) == Some(xs[i])
  {
    if items != [] {
      RealItemsMean(c, items[1..], xs[1..]);
    }
  }

  lemma CoeffsMean(c: Codec, n: Node, xs: seq<real>)
    requires ParseCoeffs(c, n) == Some(xs)
    ensures var list := Lookup(n, K_dist_coeffs);
      if !list.Sequence? then xs == [0.0, 0.0, 0.0, 0.0, 0.0]
      else |xs| == |list.items| && forall i :: 0 <= i < |xs| ==> AsReal(c, list.items[i]) == Some(xs[i])
  {
    if Lookup(n, K_dist_coeffs).Sequence? {
      RealItemsMean(c, Lookup(n, K_dist_coeffs).items, xs);
    }
  }

  lemma DetectorFields(c: Codec, n: Node, p: DetectorConfig)
    requires ParseDetector(c, n) == Some(p)
    ensures TextField(c, n, K_family, "apriltag_36h11", p.family)
    ensures RealField(c, n, K_max_reproj_error_px, 6.0, p.maxReproj)
    ensures RealField(c, n, K_min_range_m, 0.05, p.minRange) && RealField(c, n, K_max_range_m, 100.0, p.maxRange)
    ensures ParseAruco(c, Lookup(n, K_params)) == Some(p.params)
  {
    hide Absent, AsReal, AsText, ParseAruco;
  }

  lemma {:induction false} IntItemsMean(c: Codec, items: seq<Node>, xs: seq<Int32>)
    requires IntItems(c, items) == Some(xs)
    ensures |xs| == |items| && forall i :: 0 <= i < |items| ==> AsInt(c, items[i]) == Some(xs[i])
  {
    if items != [] {
      IntItemsMean(c, items[1..], xs[1..]);
    }
  }

  lemma {:induction false} TagSizesMean(c: Codec, items: seq<Node>, default: real, xs: seq<TagSize>)
    requires TagSizes(c, items, default) == Some(xs)
    ensures |xs| == |items|
    ensures forall i :: 0 <= i < |items| ==>
      && AsInt(c, Lookup(items[i], K_id)) == Some(xs[i].id) && xs[i].id >= 0
      && RealField(c, items[i], K_size_m, default, xs[i].size)
  {
    if items != [] {
      TagSizesMean(c, items[1..], default, xs[1..]);
      assert ParseTagSize(c, items[0], default) == Some(xs[0]);
    }
  }

  lemma TagsFields(c: Codec, n: Node, p: TagsConfig)
    requires ParseTags(c, n) == Some(p)
    ensures RealField(c, n, K_default_size_m, 0.3, p.defaultSize)
    ensures var list := Lookup(n, K_sizes);
      if !list.Sequence? then p.sizes == []
      else
        && |p.sizes| == |list.items|
        && forall i :: 0 <= i < |p.sizes| ==>
             && AsInt(c, Lookup(list.items[i], K_id)) == Some(p.sizes[i].id)
             && RealField(c, list.items[i], K_size_m, p.defaultSize, p.sizes[i].size)
    ensures var list := Lookup(n, K_accept_ids);
      if !list.Sequence? then p.acceptIds == []
      else
        && |p.acceptIds| == |list.items|
        && forall i :: 0 <= i < |p.acceptIds| ==> AsInt(c, list.items[i]) == Some(p.acceptIds[i])
  {
    if Lookup(n, K_sizes).Sequence? {
      TagSizesMean(c, Lookup(n, K_sizes).items, p.defaultSize, p.sizes);
    }
    if Lookup(n, K_accept_ids).Sequence? {
      IntItemsMean(c, Lookup(n, K_accept_ids).items, p.acceptIds);
    }
  }

  lemma StreamFields(c: Codec, n: Node, s: StreamConfig)
    requires ParseStream(c, n) == Some(s)
    ensures TextField(c, n, K_camera_id, "down", s.cameraId) && TextField(c, n, K_gst, "", s.gst)
    ensures IntField(c, n, K_frame_width, 1280, s.frameWidth) && IntField(c, n, K_frame_height, 720, s.frameHeight)
    ensures IntField(c, n, K_fps, 30, s.fps) && RealField(c, n, K_watchdog_timeout_sec, 3.0, s.watchdogSec)
    ensures RealField(c, n, K_detect_fps, 0.0, s.detectFps) && BoolField(c, n, K_exit_on_eos, false, s.exitOnEos)
    ensures ParseCamera(c, Lookup(n, K_camera)) == Some(s.camera)
    ensures ParseDetector(c, Lookup(n, K_detector)) == Some(s.detector)
    ensures ParseTags(c, Lookup(n, K_tags)) == Some(s.tags)
  {
    hide Absent, AsInt, AsReal, AsBool, AsText, ParseCamera, ParseDetector, ParseTags;
  }

  lemma UdpFields(c: Codec, n: Node, p: UdpConfig)
    requires ParseUdp(c, n) == Some(p)
    ensures BoolField(c, n, K_enabled, true, p.enabled) && TextField(c, n, K_dest_ip, "127.0.0.1", p.destIp)
    ensures RealField(c, n, K_heartbeat_hz, 10.0, p.heartbeatHz)
    ensures Absent(n, K_dest_port) ==> p.destPort == 5602
    ensures !Absent(n, K_dest_port) ==>
      exists wraps: int :: AsInt(c, Lookup(n, K_dest_port)).Some? &&
        AsInt(c, Lookup(n, K_dest_port)).value == p.destPort + 65536 * wraps
  {
    hide AsReal, AsBool, AsText;
    if !Absent(n, K_dest_port) {
      var v := AsInt(c, Lookup(n, K_dest_port)).value;
      assert v == ToPort(v) + 65536 * (v / 65536);
    }
  }

  lemma LoggingFields(c: Codec, n: Node, p: LoggingConfig)
    requires ParseLogging(c, n) == Some(p)
    ensures IntField(c, n, K_stats_interval_sec, 5, p.statsIntervalSec) && BoolField(c, n, K_verbose, false, p.verbose)
  {
  }

  /** A stream of which nothing is said, and sections that are missing. */
  lemma NothingSaid(c: Codec)
    ensures ParseStream(c, Mapping(map[])) == Some(StreamConfig(
      "down", "", 1280, 720, 30, 3.0, 0.0, false,
      CameraConfig(0.0, 0.0, 0.0, 0.0, "pinhole", [0.0, 0.0, 0.0, 0.0, 0.0], false, 0, 0),
      DetectorConfig("apriltag_36h11", 6.0, 0.05, 100.0,
                     ArucoParams(3, 23, 10, 0.03, 4.0, 0.03, "subpix", 5, 30, 0.1, 0.6, 0.0, false)),
      TagsConfig(0.3, [], [])))
    ensures ParseUdp(c, Undefined) == Some(UdpConfig(true, "127.0.0.1", 5602, 10.0))
    ensures ParseLogging(c, Undefined) == Some(LoggingConfig(5, false))
  {
  }

  // ----- which keys a complete document spells out -----

  predicate HasAll(n: Node, keys: set<Key>) {
    forall key :: key in keys ==> !Absent(n, key)
  }

  const THRESHOLD_KEYS: set<Key> := {
    K_adaptive_thresh_win_size_min, K_adaptive_thresh_win_size_max, K_adaptive_thresh_win_size_step,
    K_min_marker_perimeter_rate, K_max_marker_perimeter_rate, K_polygonal_approx_accuracy_rate}
  const REFINEMENT_KEYS: set<Key> := {
    K_corner_refine, K_corner_refine_win_size, K_corner_refine_max_iterations, K_corner_refine_min_accuracy,
    K_error_correction_rate, K_apriltag_quad_decimate, K_detect_inverted_marker}
  const ARUCO_KEYS: set<Key> := THRESHOLD_KEYS + REFINEMENT_KEYS
  const CAMERA_KEYS: set<Key> := {
    K_fx, K_fy, K_cx, K_cy, K_distortion_model, K_dist_coeffs, K_undistort, K_calib_width, K_calib_height}
  const DETECTOR_KEYS: set<Key> := {
    K_family, K_max_reproj_error_px, K_min_range_m, K_max_range_m, K_params}
  const TAGS_KEYS: set<Key> := {
    K_default_size_m}
  const STREAM_KEYS: set<Key> := {
    K_camera_id, K_gst, K_frame_width, K_frame_height, K_fps, K_watchdog_timeout_sec, K_detect_fps,
    K_exit_on_eos}
  const UDP_KEYS: set<Key> := {
    K_enabled, K_dest_ip, K_dest_port, K_heartbeat_hz}
  const LOGGING_KEYS: set<Key> := {
    K_stats_interval_sec, K_verbose}

  predicate CompleteSections(n: Node) {
    && !Absent(n, K_camera) && !Absent(n, K_detector) && !Absent(n, K_tags)
    && HasAll(Lookup(n, K_camera), CAMERA_KEYS)
    && HasAll(Lookup(n, K_detector), DETECTOR_KEYS)
    && HasAll(Lookup(Lookup(n, K_detector), K_params), ARUCO_KEYS)
    && HasAll(Lookup(n, K_tags), TAGS_KEYS)
  }

  predicate CompleteStream(n: Node) {
    HasAll(n, STREAM_KEYS) && CompleteSections(n)
  }

  predicate CompleteStreams(items: seq<Node>) {
    items == [] || (CompleteStream(items[0]) && CompleteStreams(items[1..]))
  }

  /** Every key that is read through the healer, and `dist_coeffs`, is present. What
      is read past it can still be missing: see `Silent`. */
  predicate Complete(root: Node) {
    && Lookup(root, K_streams).Sequence? && CompleteStreams(Lookup(root, K_streams).items)
    && !Absent(root, K_udp) && HasAll(Lookup(root, K_udp), UDP_KEYS)
    && !Absent(root, K_logging) && HasAll(Lookup(root, K_logging), LOGGING_KEYS)
  }

  // ----- the healer -----

  /** A method's outcome agrees with what the document means. */
  ghost predicate Agrees<T>(r: Result<T, ConfigError>, meaning: Option<T>) {
    if r.Success? then meaning == Some(r.value) else meaning.None?
  }

  /** `front` was read before `rest`. */
  function Prepend<T>(front: seq<T>, rest: Option<seq<T>>): Option<seq<T>> {
    if rest.Some? then Some(front + rest.value) else None
  }

  lemma PrependNothing<T>(rest: Option<seq<T>>)
    ensures Prepend([], rest) == rest
  {
    assert rest.Some? ==> [] + rest.value == rest.value;
  }

  lemma PrependOne<T>(front: seq<T>, v: T, rest: Option<seq<T>>)
    ensures Prepend(front + [v], rest) == Prepend(front, Prepend([v], rest))
  {
    assert rest.Some? ==> (front + [v]) + rest.value == front + ([v] + rest.value);
  }

  class Healer {
    var healed: bool

    constructor ()
      ensures !healed
    {
      healed := false;
    }

    method GetInt(c: Codec, n: Node, key: Key, def: Int32) returns (r: Result<Int32, ConfigError>)
      modifies this
      ensures Agrees(r, ReadInt(c, n, key, def)) && (r.Failure? ==> r.error == WrongType(key))
      ensures healed == (old(healed) || Absent(n, key))
    {
      if Absent(n, key) {
        healed := true;
        return Success(def);
      }
      var v := AsInt(c, Lookup(n, key));
      r := if v.Some? then Success(v.value) else Failure(WrongType(key));
    }

    method GetReal(c: Codec, n: Node, key: Key, def: real) returns (r: Result<real, ConfigError>)
      modifies this
      ensures Agrees(r, ReadReal(c, n, key, def)) && (r.Failure? ==> r.error == WrongType(key))
      ensures healed == (old(healed) || Absent(n, key))
    {
      if Absent(n, key) {
        healed := true;
        return Success(def);
      }
      var v := AsReal(c, Lookup(n, key));
      r := if v.Some? then Success(v.value) else Failure(WrongType(key));
    }

    method GetBool(c: Codec, n: Node, key: Key, def: bool) returns (r: Result<bool, ConfigError>)
      modifies this
      ensures Agrees(r, ReadBool(c, n, key, def)) && (r.Failure? ==> r.error == WrongType(key))
      ensures healed == (old(healed) || Absent(n, key))
    {
      if Absent(n, key) {
        healed := true;
        return Success(def);
      }
      var v := AsBool(c, Lookup(n, key));
      r := if v.Some? then Success(v.value) else Failure(WrongType(key));
    }

    method GetText(c: Codec, n: Node, key: Key, def: string) returns (r: Result<string, ConfigError>)
      modifies this
      ensures Agrees(r, ReadText(c, n, key, def)) && (r.Failure? ==> r.error == WrongType(key))
      ensures healed == (old(healed) || Absent(n, key))
    {
      if Absent(n, key) {
        healed := true;
        return Success(def);
      }
      var v := AsText(c, Lookup(n, key));
      r := if v.Some? then Success(v.value) else Failure(WrongType(key));
    }

    method Section(n: Node, key: Key) returns (section: Node)
      modifies this
      ensures section == Lookup(n, key)
      ensures healed == (old(healed) || Absent(n, key))
    {
      if Absent(n, key) {
        healed := true;
        return Undefined;
      }
      section := Lookup(n, key);
    }

    method Coeffs(c: Codec, n: Node) returns (r: Result<seq<real>, ConfigError>)
      modifies this
      ensures Agrees(r, ParseCoeffs(c, n))
      ensures healed == (old(healed) || Absent(n, K_dist_coeffs))
    {
      var list := Lookup(n, K_dist_coeffs);
      if list.Undefined? {
        healed := true;
        return Success(DEFAULT_COEFFS);
      }
      if !list.Sequence? {
        return Success(DEFAULT_COEFFS);
      }
      var out: seq<real> := [];
      assert list.items[0..] == list.items;
      PrependNothing(RealItems(c, list.items));
      for i := 0 to |list.items|
        invariant healed == old(healed)
        invariant RealItems(c, list.items) == Prepend(out, RealItems(c, list.items[i..]))
      {
        assert list.items[i..][1..] == list.items[i + 1..];
        var v := AsReal(c, list.items[i]);
        if v.None? {
          return Failure(BadElement);
        }
        PrependOne(out, v.value, RealItems(c, list.items[i + 1..]));
        out := out + [v.value];
      }
      r := Success(out);
      assert out + [] == out;
    }

    method ReadThresholds(c: Codec, n: Node) returns (r: Result<Thresholds, ConfigError>)
      modifies this
      ensures Agrees(r, ParseThresholds(c, n))
      ensures r.Success? ==> healed == (old(healed) || !HasAll(n, THRESHOLD_KEYS))
    {
      var winMin :- GetInt(c, n, K_adaptive_thresh_win_size_min, 3);
      var winMax :- GetInt(c, n, K_adaptive_thresh_win_size_max, 23);
      var winStep :- GetInt(c, n, K_adaptive_thresh_win_size_step, 10);
      var minPerimeter :- GetReal(c, n, K_min_marker_perimeter_rate, 0.03);
      var maxPerimeter :- GetReal(c, n, K_max_marker_perimeter_rate, 4.0);
      var polyAccuracy :- GetReal(c, n, K_polygonal_approx_accuracy_rate, 0.03);
      r := Success(Thresholds(winMin, winMax, winStep, minPerimeter, maxPerimeter, polyAccuracy));
    }

    method ReadRefinement(c: Codec, n: Node) returns (r: Result<Refinement, ConfigError>)
      modifies this
      ensures Agrees(r, ParseRefinement(c, n))
      ensures r.Success? ==> healed == (old(healed) || !HasAll(n, REFINEMENT_KEYS))
    {
      var cornerRefine :- GetText(c, n, K_corner_refine, "subpix");
      var refineWin :- GetInt(c, n, K_corner_refine_win_size, 5);
      var refineIterations :- GetInt(c, n, K_corner_refine_max_iterations, 30);
      var refineAccuracy :- GetReal(c, n, K_corner_refine_min_accuracy, 0.1);
      var errorCorrection :- GetReal(c, n, K_error_correction_rate, 0.6);
      var quadDecimate :- GetReal(c, n, K_apriltag_quad_decimate, 0.0);
      var inverted :- GetBool(c, n, K_detect_inverted_marker, false);
      r := Success(Refinement(cornerRefine, refineWin, refineIterations, refineAccuracy, errorCorrection,
                              quadDecimate, inverted));
    }

    method Aruco(c: Codec, n: Node) returns (r: Result<ArucoParams, ConfigError>)
      modifies this
      ensures Agrees(r, ParseAruco(c, n))
      ensures r.Success? ==> healed == (old(healed) || !HasAll(n, ARUCO_KEYS))
    {
      var a :- ReadThresholds(c, n);
      var b :- ReadRefinement(c, n);
      r := Success(ArucoOf(a, b));
    }

    method Camera(c: Codec, n: Node) returns (r: Result<CameraConfig, ConfigError>)
      modifies this
      ensures Agrees(r, ParseCamera(c, n))
      ensures r.Success? ==> healed == (old(healed) || !HasAll(n, CAMERA_KEYS))
    {
      var fx :- GetReal(c, n, K_fx, 0.0);
      var fy :- GetReal(c, n, K_fy, 0.0);
      var cx :- GetReal(c, n, K_cx, 0.0);
      var cy :- GetReal(c, n, K_cy, 0.0);
      var model :- GetText(c, n, K_distortion_model, "pinhole");
      var distCoeffs :- Coeffs(c, n);
      var undistort :- GetBool(c, n, K_undistort, false);
      var calibWidth :- GetInt(c, n, K_calib_width, 0);
      var calibHeight :- GetInt(c, n, K_calib_height, 0);
      r := Success(CameraConfig(fx, fy, cx, cy, model, distCoeffs, undistort, calibWidth, calibHeight));
    }

    method Detector(c: Codec, n: Node) returns (r: Result<DetectorConfig, ConfigError>)
      modifies this
      ensures Agrees(r, ParseDetector(c, n))
      ensures r.Success? ==>
        healed == (old(healed) || !HasAll(n, DETECTOR_KEYS) || !HasAll(Lookup(n, K_params), ARUCO_KEYS))
    {
      var family :- GetText(c, n, K_family, "apriltag_36h11");
      var maxReproj :- GetReal(c, n, K_max_reproj_error_px, 6.0);
      var minRange :- GetReal(c, n, K_min_range_m, 0.05);
      var maxRange :- GetReal(c, n, K_max_range_m, 100.0);
      var section := Section(n, K_params);
      var params :- Aruco(c, section);
      r := Success(DetectorConfig(family, maxReproj, minRange, maxRange, params));
    }

    method OneSize(c: Codec, e: Node, default: real) returns (r: Result<TagSize, ConfigError>)
      ensures Agrees(r, ParseTagSize(c, e, default))
    {
      if e.Scalar? {
        return Failure(BadSubscript);
      }
      var id := ReadInt(c, e, K_id, -1);
      if id.None? {
        return Failure(WrongType(K_id));
      }
      var size := ReadReal(c, e, K_size_m, default);
      if size.None? {
        return Failure(WrongType(K_size_m));
      }
      if id.value < 0 {
        return Failure(MissingTagId);
      }
      r := Success(TagSize(id.value, size.value));
    }

    method Sizes(c: Codec, items: seq<Node>, default: real) returns (r: Result<seq<TagSize>, ConfigError>)
      ensures Agrees(r, TagSizes(c, items, default))
    {
      var out: seq<TagSize> := [];
      assert items[0..] == items;
      PrependNothing(TagSizes(c, items, default));
      for i := 0 to |items|
        invariant TagSizes(c, items, default) == Prepend(out, TagSizes(c, items[i..], default))
      {
        assert items[i..][1..] == items[i + 1..];
        var ts :- OneSize(c, items[i], default);
        PrependOne(out, ts, TagSizes(c, items[i + 1..], default));
        out := out + [ts];
      }
      r := Success(out);
      assert out + [] == out;
    }

    method Ids(c: Codec, items: seq<Node>) returns (r: Result<seq<Int32>, ConfigError>)
      ensures Agrees(r, IntItems(c, items))
    {
      var out: seq<Int32> := [];
      assert items[0..] == items;
      PrependNothing(IntItems(c, items));
      for i := 0 to |items|
        invariant IntItems(c, items) == Prepend(out, IntItems(c, items[i..]))
      {
        assert items[i..][1..] == items[i + 1..];
        var v := AsInt(c, items[i]);
        if v.None? {
          return Failure(BadElement);
        }
        PrependOne(out, v.value, IntItems(c, items[i + 1..]));
        out := out + [v.value];
      }
      r := Success(out);
      assert out + [] == out;
    }

    method Tags(c: Codec, n: Node) returns (r: Result<TagsConfig, ConfigError>)
      modifies this
      ensures Agrees(r, ParseTags(c, n))
      ensures r.Success? ==> healed == (old(healed) || !HasAll(n, TAGS_KEYS))
    {
      var defaultSize :- GetReal(c, n, K_default_size_m, 0.30);
      var sizes: seq<TagSize> := [];
      if Lookup(n, K_sizes).Sequence? {
        sizes :- Sizes(c, Lookup(n, K_sizes).items, defaultSize);
      }
      var acceptIds: seq<Int32> := [];
      if Lookup(n, K_accept_ids).Sequence? {
        acceptIds :- Ids(c, Lookup(n, K_accept_ids).items);
      }
      r := Success(TagsConfig(defaultSize, sizes, acceptIds));
    }

    method ReadSections(c: Codec, n: Node) returns (r: Result<Sections, ConfigError>)
      modifies this
      ensures Agrees(r, ParseSections(c, n))
      ensures r.Success? ==> healed == (old(healed) || !CompleteSections(n))
    {
      var cameraNode := Section(n, K_camera);
      var camera :- Camera(c, cameraNode);
      var detectorNode := Section(n, K_detector);
      var detector :- Detector(c, detectorNode);
      var tagsNode := Section(n, K_tags);
      var tags :- Tags(c, tagsNode);
      r := Success(Sections(camera, detector, tags));
    }

    method ReadStreamKeys(c: Codec, n: Node) returns (r: Result<StreamKeys, ConfigError>)
      modifies this
      ensures Agrees(r, ParseStreamKeys(c, n))
      ensures r.Success? ==> healed == (old(healed) || !HasAll(n, STREAM_KEYS))
    {
      var cameraId :- GetText(c, n, K_camera_id, "down");
      var gst :- GetText(c, n, K_gst, "");
      var frameWidth :- GetInt(c, n, K_frame_width, 1280);
      var frameHeight :- GetInt(c, n, K_frame_height, 720);
      var fps :- GetInt(c, n, K_fps, 30);
      var watchdogSec :- GetReal(c, n, K_watchdog_timeout_sec, 3.0);
      var detectFps :- GetReal(c, n, K_detect_fps, 0.0);
      var exitOnEos :- GetBool(c, n, K_exit_on_eos, false);
      r := Success(StreamKeys(cameraId, gst, frameWidth, frameHeight, fps, watchdogSec, detectFps, exitOnEos));
    }

    method Stream(c: Codec, n: Node) returns (r: Result<StreamConfig, ConfigError>)
      modifies this
      ensures Agrees(r, ParseStream(c, n))
      ensures r.Success? ==> healed == (old(healed) || !CompleteStream(n))
    {
      var k :- ReadStreamKeys(c, n);
      var sections :- ReadSections(c, n);
      r := Success(StreamOf(k, sections));
    }

    method Streams(c: Codec, items: seq<Node>) returns (r: Result<seq<StreamConfig>, ConfigError>)
      modifies this
      ensures Agrees(r, ParseStreams(c, items))
      ensures r.Success? ==> healed == (old(healed) || !CompleteStreams(items))
    {
      var out: seq<StreamConfig> := [];
      assert items[0..] == items;
      PrependNothing(ParseStreams(c, items));
      for i := 0 to |items|
        invariant ParseStreams(c, items) == Prepend(out, ParseStreams(c, items[i..]))
        invariant (healed || !CompleteStreams(items[i..])) == (old(healed) || !CompleteStreams(items))
      {
        assert items[i..][1..] == items[i + 1..];
        var s :- Stream(c, items[i]);
        PrependOne(out, s, ParseStreams(c, items[i + 1..]));
        out := out + [s];
      }
      r := Success(out);
      assert out + [] == out;
    }

    method Udp(c: Codec, n: Node) returns (r: Result<UdpConfig, ConfigError>)
      modifies this
      ensures Agrees(r, ParseUdp(c, n))
      ensures r.Success? ==> healed == (old(healed) || !HasAll(n, UDP_KEYS))
    {
      var enabled :- GetBool(c, n, K_enabled, true);
      var destIp :- GetText(c, n, K_dest_ip, "127.0.0.1");
      var destPort :- GetInt(c, n, K_dest_port, 5602);
      var heartbeatHz :- GetReal(c, n, K_heartbeat_hz, 10.0);
      r := Success(UdpConfig(enabled, destIp, ToPort(destPort), heartbeatHz));
    }

    method Logging(c: Codec, n: Node) returns (r: Result<LoggingConfig, ConfigError>)
      modifies this
      ensures Agrees(r, ParseLogging(c, n))
      ensures r.Success? ==> healed == (old(healed) || !HasAll(n, LOGGING_KEYS))
    {
      var statsIntervalSec :- GetInt(c, n, K_stats_interval_sec, 5);
      var verbose :- GetBool(c, n, K_verbose, false);
      r := Success(LoggingConfig(statsIntervalSec, verbose));
    }
  }

  method FindDuplicate(streams: seq<StreamConfig>) returns (r: Option<string>)
    ensures r.Some? <==> HasDuplicate(streams)
  {
    var seen: set<string> := {};
    for i := 0 to |streams|
      invariant forall id :: id in seen <==> exists k :: 0 <= k < i && streams[k].cameraId == id
      invariant !HasDuplicate(streams[..i])
    {
      if streams[i].cameraId in seen {
        return Some(streams[i].cameraId);
      }
      seen := seen + {streams[i].cameraId};
    }
    assert streams[..|streams|] == streams;
    r := None;
  }

  /** loadFromFile, from the parsed document on: it succeeds exactly on documents
      that load, and reports `healed` exactly when a key read through the healer is
      absent. Whether anything at all was missing is `Complete` and not `Silent`. */
  method Load(c: Codec, root: Node) returns (r: Result<(AppConfig, bool), ConfigError>)
    ensures r.Success? ==> Loads(c, root, r.value.0) && (r.value.1 <==> !Complete(root))
    ensures r.Success? ==> (SpellsOut(root, Emit(c, r.value.0)) <==> !r.value.1 && !Silent(root))
    ensures r.Failure? ==> forall cfg :: !Loads(c, root, cfg)
  {
    if root.Scalar? {
      return Failure(BadSubscript);
    }
    if !HasStreamList(root) {
      return Failure(NoStreamList);
    }
    var h := new Healer();
    var streams :- h.Streams(c, Lookup(root, K_streams).items);
    var duplicate := FindDuplicate(streams);
    if duplicate.Some? {
      return Failure(DuplicateCamera(duplicate.value));
    }
    var udpNode := h.Section(root, K_udp);
    var udp :- h.Udp(c, udpNode);
    var logNode := h.Section(root, K_logging);
    var logging :- h.Logging(c, logNode);
    r := Success((AppConfig(streams, udp, logging), h.healed));
    HealedExactly(c, root, r.value.0);
  }

  // ----- writing back -----

  function EmitAruco(c: Codec, p: ArucoParams): Node {
    Mapping(map[
        K_adaptive_thresh_win_size_min := Scalar(c.printInt(p.winMin)),
        K_adaptive_thresh_win_size_max := Scalar(c.printInt(p.winMax)),
        K_adaptive_thresh_win_size_step := Scalar(c.printInt(p.winStep)),
        K_min_marker_perimeter_rate := Scalar(c.printReal(p.minPerimeter)),
        K_max_marker_perimeter_rate := Scalar(c.printReal(p.maxPerimeter)),
        K_polygonal_approx_accuracy_rate := Scalar(c.printReal(p.polyAccuracy)),
        K_corner_refine := Scalar(p.cornerRefine),
        K_corner_refine_win_size := Scalar(c.printInt(p.refineWin)),
        K_corner_refine_max_iterations := Scalar(c.printInt(p.refineIterations)),
        K_corner_refine_min_accuracy := Scalar(c.printReal(p.refineAccuracy)),
        K_error_correction_rate := Scalar(c.printReal(p.errorCorrection)),
        K_apriltag_quad_decimate := Scalar(c.printReal(p.quadDecimate)),
        K_detect_inverted_marker := Scalar(c.printBool(p.inverted))])
  }

  function EmitCamera(c: Codec, p: CameraConfig): Node {
    Mapping(map[
        K_fx := Scalar(c.printReal(p.fx)),
        K_fy := Scalar(c.printReal(p.fy)),
        K_cx := Scalar(c.printReal(p.cx)),
        K_cy := Scalar(c.printReal(p.cy)),
        K_distortion_model := Scalar(p.model),
        K_dist_coeffs := Sequence(EmitReals(c, p.distCoeffs)),
        K_undistort := Scalar(c.printBool(p.undistort)),
        K_calib_width := Scalar(c.printInt(p.calibWidth)),
        K_calib_height := Scalar(c.printInt(p.calibHeight))])
  }

  function EmitReals(c: Codec, xs: seq<real>): seq<Node> {
    if xs == [] then [] else [Scalar(c.printReal(xs[0]))] + EmitReals(c, xs[1..])
  }

  function EmitInts(c: Codec, xs: seq<Int32>): seq<Node> {
    if xs == [] then [] else [Scalar(c.printInt(xs[0]))] + EmitInts(c, xs[1..])
  }

  function EmitDetector(c: Codec, p: DetectorConfig): Node {
    Mapping(map[
        K_family := Scalar(p.family),
        K_max_reproj_error_px := Scalar(c.printReal(p.maxReproj)),
        K_min_range_m := Scalar(c.printReal(p.minRange)),
        K_max_range_m := Scalar(c.printReal(p.maxRange)),
        K_params := EmitAruco(c, p.params)])
  }

  function EmitTagSize(c: Codec, ts: TagSize): Node {
    Mapping(map[K_id := Scalar(c.printInt(ts.id)), K_size_m := Scalar(c.printReal(ts.size))])
  }

  function EmitTagSizes(c: Codec, sizes: seq<TagSize>): seq<Node> {
    if sizes == [] then [] else [EmitTagSize(c, sizes[0])] + EmitTagSizes(c, sizes[1..])
  }

  function EmitTags(c: Codec, p: TagsConfig): Node {
    Mapping(map[
        K_default_size_m := Scalar(c.printReal(p.defaultSize)),
        K_sizes := Sequence(EmitTagSizes(c, p.sizes)),
        K_accept_ids := Sequence(EmitInts(c, p.acceptIds))])
  }

  function EmitStream(c: Codec, s: StreamConfig): Node {
    Mapping(map[
        K_camera_id := Scalar(s.cameraId),
        K_gst := Scalar(s.gst),
        K_frame_width := Scalar(c.printInt(s.frameWidth)),
        K_frame_height := Scalar(c.printInt(s.frameHeight)),
        K_fps := Scalar(c.printInt(s.fps)),
        K_watchdog_timeout_sec := Scalar(c.printReal(s.watchdogSec)),
        K_detect_fps := Scalar(c.printReal(s.detectFps)),
        K_exit_on_eos := Scalar(c.printBool(s.exitOnEos)),
        K_camera := EmitCamera(c, s.camera),
        K_detector := EmitDetector(c, s.detector),
        K_tags := EmitTags(c, s.tags)])
  }

  function EmitStreams(c: Codec, streams: seq<StreamConfig>): seq<Node> {
    if streams == [] then [] else [EmitStream(c, streams[0])] + EmitStreams(c, streams[1..])
  }

  function EmitUdp(c: Codec, p: UdpConfig): Node {
    Mapping(map[
        K_enabled := Scalar(c.printBool(p.enabled)),
        K_dest_ip := Scalar(p.destIp),
        K_dest_port := Scalar(c.printInt(p.destPort)),
        K_heartbeat_hz := Scalar(c.printReal(p.heartbeatHz))])
  }

  function EmitLogging(c: Codec, p: LoggingConfig): Node {
    Mapping(map[
        K_stats_interval_sec := Scalar(c.printInt(p.statsIntervalSec)),
        K_verbose := Scalar(c.printBool(p.verbose))])
  }

  /** The document writeToFile emits. */
  function Emit(c: Codec, cfg: AppConfig): Node {
    Mapping(map[
        K_streams := Sequence(EmitStreams(c, cfg.streams)),
        K_udp := EmitUdp(c, cfg.udp),
        K_logging := EmitLogging(c, cfg.logging)])
  }

  /** The emitted streams after the first `i` were written as `items`. */
  lemma OneMoreStream(c: Codec, streams: seq<StreamConfig>, i: nat, items: seq<Node>, node: Node)
    requires i < |streams| && items + EmitStreams(c, streams[i..]) == EmitStreams(c, streams)
    requires node == EmitStream(c, streams[i])
    ensures (items + [node]) + EmitStreams(c, streams[i + 1..]) == EmitStreams(c, streams)
  {
    assert streams[i..][1..] == streams[i + 1..];
  }

  method WriteStreams(c: Codec, streams: seq<StreamConfig>) returns (items: seq<Node>)
    ensures items == EmitStreams(c, streams)
  {
    items := [];
    assert streams[0..] == streams;
    for i := 0 to |streams|
      invariant items + EmitStreams(c, streams[i..]) == EmitStreams(c, streams)
    {
      var node := EmitStream(c, streams[i]);
      OneMoreStream(c, streams, i, items, node);
      items := items + [node];
    }
  }

  /** writeToFile, up to the emitter. */
  method Write(c: Codec, cfg: AppConfig) returns (root: Node)
    ensures root == Emit(c, cfg)
  {
    var items := WriteStreams(c, cfg.streams);
    root := Mapping(map[
      K_streams := Sequence(items),
      K_udp := EmitUdp(c, cfg.udp),
      K_logging := EmitLogging(c, cfg.logging)]);
  }

  // ----- numbers that print back -----

  ghost predicate ArucoPrints(c: Codec, p: ArucoParams) {
    && Prints(c, p.minPerimeter) && Prints(c, p.maxPerimeter) && Prints(c, p.polyAccuracy)
    && Prints(c, p.refineAccuracy) && Prints(c, p.errorCorrection) && Prints(c, p.quadDecimate)
  }

  ghost predicate AllPrint(c: Codec, xs: seq<real>) {
    forall i :: 0 <= i < |xs| ==> Prints(c, xs[i])
  }

  ghost predicate CameraPrints(c: Codec, p: CameraConfig) {
    Prints(c, p.fx) && Prints(c, p.fy) && Prints(c, p.cx) && Prints(c, p.cy) && AllPrint(c, p.distCoeffs)
  }

  ghost predicate DetectorPrints(c: Codec, p: DetectorConfig) {
    Prints(c, p.maxReproj) && Prints(c, p.minRange) && Prints(c, p.maxRange) && ArucoPrints(c, p.params)
  }

  ghost predicate SizesPrint(c: Codec, sizes: seq<TagSize>) {
    forall i :: 0 <= i < |sizes| ==> Prints(c, sizes[i].size)
  }

  ghost predicate TagsPrint(c: Codec, p: TagsConfig) {
    Prints(c, p.defaultSize) && SizesPrint(c, p.sizes)
  }

  ghost predicate StreamPrints(c: Codec, s: StreamConfig) {
    && Prints(c, s.watchdogSec) && Prints(c, s.detectFps)
    && CameraPrints(c, s.camera) && DetectorPrints(c, s.detector) && TagsPrint(c, s.tags)
  }

  /** Every number of the configuration reads back from what is printed of it. */
  ghost predicate ConfigPrints(c: Codec, cfg: AppConfig) {
    (forall i :: 0 <= i < |cfg.streams| ==> StreamPrints(c, cfg.streams[i])) && Prints(c, cfg.udp.heartbeatHz)
  }

  /** A number that was read prints back; the default it falls back to must. */
  lemma ReadPrints(c: Codec, n: Node, key: Key, def: real)
    requires Lossless(c) && Prints(c, def) && ReadReal(c, n, key, def).Some?
    ensures Prints(c, ReadReal(c, n, key, def).value)
  {
  }

  lemma DefaultPrints(c: Codec, x: real)
    requires Lossless(c) && x in DEFAULT_REALS
    ensures Prints(c, x)
  {
  }

  lemma DefaultReadPrints(c: Codec, n: Node, key: Key, def: real)
    requires Lossless(c) && def in DEFAULT_REALS && ReadReal(c, n, key, def).Some?
    ensures Prints(c, ReadReal(c, n, key, def).value)
  {
    hide Prints, ReadReal;
    DefaultPrints(c, def);
    ReadPrints(c, n, key, def);
  }

  lemma {:induction false} ItemsPrint(c: Codec, items: seq<Node>)
    requires Lossless(c) && RealItems(c, items).Some?
    ensures AllPrint(c, RealItems(c, items).value)
  {
    if items != [] {
      ItemsPrint(c, items[1..]);
    }
  }

  lemma CoeffsPrint(c: Codec, n: Node)
    requires Lossless(c) && ParseCoeffs(c, n).Some?
    ensures AllPrint(c, ParseCoeffs(c, n).value)
  {
    DefaultPrints(c, 0.0);
    if Lookup(n, K_dist_coeffs).Sequence? {
      ItemsPrint(c, Lookup(n, K_dist_coeffs).items);
    }
  }

  lemma ParsedCameraPrints(c: Codec, n: Node)
    requires Lossless(c) && ParseCamera(c, n).Some?
    ensures CameraPrints(c, ParseCamera(c, n).value)
  {
    hide Lossless, Prints, ReadReal, AllPrint, ParseCoeffs;
    assert 0.0 in DEFAULT_REALS;
    DefaultReadPrints(c, n, K_fx, 0.0);
    DefaultReadPrints(c, n, K_fy, 0.0);
    DefaultReadPrints(c, n, K_cx, 0.0);
    DefaultReadPrints(c, n, K_cy, 0.0);
    CoeffsPrint(c, n);
  }

  lemma ParsedArucoPrints(c: Codec, n: Node)
    requires Lossless(c) && ParseAruco(c, n).Some?
    ensures ArucoPrints(c, ParseAruco(c, n).value)
  {
    hide Lossless, Prints, ReadReal;
    DefaultReadPrints(c, n, K_min_marker_perimeter_rate, 0.03);
    DefaultReadPrints(c, n, K_max_marker_perimeter_rate, 4.0);
    DefaultReadPrints(c, n, K_polygonal_approx_accuracy_rate, 0.03);
    DefaultReadPrints(c, n, K_corner_refine_min_accuracy, 0.1);
    DefaultReadPrints(c, n, K_error_correction_rate, 0.6);
    DefaultReadPrints(c, n, K_apriltag_quad_decimate, 0.0);
  }

  lemma ParsedDetectorPrints(c: Codec, n: Node)
    requires Lossless(c) && ParseDetector(c, n).Some?
    ensures DetectorPrints(c, ParseDetector(c, n).value)
  {
    hide Lossless, Prints, ReadReal, ParseAruco, ArucoPrints;
    DefaultReadPrints(c, n, K_max_reproj_error_px, 6.0);
    DefaultReadPrints(c, n, K_min_range_m, 0.05);
    DefaultReadPrints(c, n, K_max_range_m, 100.0);
    ParsedArucoPrints(c, Lookup(n, K_params));
  }

  lemma {:induction false} ParsedSizesPrint(c: Codec, items: seq<Node>, default: real)
    requires Lossless(c) && Prints(c, default) && TagSizes(c, items, default).Some?
    ensures SizesPrint(c, TagSizes(c, items, default).value)
  {
    if items != [] {
      ReadPrints(c, items[0], K_size_m, default);
      ParsedSizesPrint(c, items[1..], default);
    }
  }

  lemma ParsedTagsPrint(c: Codec, n: Node)
    requires Lossless(c) && ParseTags(c, n).Some?
    ensures TagsPrint(c, ParseTags(c, n).value)
  {
    DefaultReadPrints(c, n, K_default_size_m, 0.3);
    if Lookup(n, K_sizes).Sequence? {
      ParsedSizesPrint(c, Lookup(n, K_sizes).items, ParseTags(c, n).value.defaultSize);
    }
  }

  lemma ParsedKeysPrint(c: Codec, n: Node)
    requires Lossless(c) && ParseStreamKeys(c, n).Some?
    ensures Prints(c, ParseStreamKeys(c, n).value.watchdogSec) && Prints(c, ParseStreamKeys(c, n).value.detectFps)
  {
    hide Lossless, Prints, ReadReal;
    DefaultReadPrints(c, n, K_watchdog_timeout_sec, 3.0);
    DefaultReadPrints(c, n, K_detect_fps, 0.0);
  }

  lemma ParsedStreamPrints(c: Codec, n: Node)
    requires Lossless(c) && ParseStream(c, n).Some?
    ensures StreamPrints(c, ParseStream(c, n).value)
  {
    hide Lossless, Prints, ParseStreamKeys, ParseCamera, ParseDetector, ParseTags, CameraPrints, DetectorPrints,
      TagsPrint;
    ParsedKeysPrint(c, n);
    ParsedCameraPrints(c, Lookup(n, K_camera));
    ParsedDetectorPrints(c, Lookup(n, K_detector));
    ParsedTagsPrint(c, Lookup(n, K_tags));
  }

  lemma {:induction false} ParsedStreamsPrint(c: Codec, items: seq<Node>)
    requires Lossless(c) && ParseStreams(c, items).Some?
    ensures forall i :: 0 <= i < |ParseStreams(c, items).value| ==> StreamPrints(c, ParseStreams(c, items).value[i])
  {
    hide Lossless, ParseStream, StreamPrints;
    if items != [] {
      ParsedStreamPrints(c, items[0]);
      ParsedStreamsPrint(c, items[1..]);
    }
  }

  lemma ParsedUdpPrints(c: Codec, n: Node)
    requires Lossless(c) && ParseUdp(c, n).Some?
    ensures Prints(c, ParseUdp(c, n).value.heartbeatHz)
  {
    hide Lossless, Prints, ReadReal;
    DefaultReadPrints(c, n, K_heartbeat_hz, 10.0);
  }

  /** Every number of a configuration that was loaded prints back. */
  lemma LoadedPrints(c: Codec, root: Node, cfg: AppConfig)
    requires Lossless(c) && Loads(c, root, cfg)
    ensures ConfigPrints(c, cfg)
  {
    hide Lossless, Prints, ParseUdp, ParseStreams, StreamPrints;
    ParsedStreamsPrint(c, Lookup(root, K_streams).items);
    ParsedUdpPrints(c, Lookup(root, K_udp));
  }

  // ----- healing loses nothing -----

  lemma IntReadsBack(c: Codec, n: Node, key: Key, v: Int32, def: Int32)
    requires Lossless(c) && Lookup(n, key) == Scalar(c.printInt(v))
    ensures ReadInt(c, n, key, def) == Some(v)
  {
  }

  lemma RealReadsBack(c: Codec, n: Node, key: Key, v: real, def: real)
    requires Prints(c, v) && Lookup(n, key) == Scalar(c.printReal(v))
    ensures ReadReal(c, n, key, def) == Some(v)
  {
  }

  lemma BoolReadsBack(c: Codec, n: Node, key: Key, v: bool, def: bool)
    requires Lossless(c) && Lookup(n, key) == Scalar(c.printBool(v))
    ensures ReadBool(c, n, key, def) == Some(v)
  {
  }

  /** The node spells out every parameter. */
  predicate HoldsAruco(c: Codec, n: Node, p: ArucoParams) {
    HoldsThresholds(c, n, p) && HoldsRefinement(c, n, p)
  }

  predicate HoldsThresholds(c: Codec, n: Node, p: ArucoParams) {
    && Lookup(n, K_adaptive_thresh_win_size_min) == Scalar(c.printInt(p.winMin))
    && Lookup(n, K_adaptive_thresh_win_size_max) == Scalar(c.printInt(p.winMax))
    && Lookup(n, K_adaptive_thresh_win_size_step) == Scalar(c.printInt(p.winStep))
    && Lookup(n, K_min_marker_perimeter_rate) == Scalar(c.printReal(p.minPerimeter))
    && Lookup(n, K_max_marker_perimeter_rate) == Scalar(c.printReal(p.maxPerimeter))
    && Lookup(n, K_polygonal_approx_accuracy_rate) == Scalar(c.printReal(p.polyAccuracy))
  }

  predicate HoldsRefinement(c: Codec, n: Node, p: ArucoParams) {
    && Lookup(n, K_corner_refine) == Scalar(p.cornerRefine)
    && Lookup(n, K_corner_refine_win_size) == Scalar(c.printInt(p.refineWin))
    && Lookup(n, K_corner_refine_max_iterations) == Scalar(c.printInt(p.refineIterations))
    && Lookup(n, K_corner_refine_min_accuracy) == Scalar(c.printReal(p.refineAccuracy))
    && Lookup(n, K_error_correction_rate) == Scalar(c.printReal(p.errorCorrection))
    && Lookup(n, K_apriltag_quad_decimate) == Scalar(c.printReal(p.quadDecimate))
    && Lookup(n, K_detect_inverted_marker) == Scalar(c.printBool(p.inverted))
  }

  lemma ArucoEmitted(c: Codec, p: ArucoParams)
    ensures HoldsAruco(c, EmitAruco(c, p), p)
  {
    hide EmitAruco, HoldsThresholds, HoldsRefinement;
    ThresholdsEmitted(c, p);
    RefinementEmitted(c, p);
  }

  lemma ThresholdsEmitted(c: Codec, p: ArucoParams)
    ensures HoldsThresholds(c, EmitAruco(c, p), p)
  {
  }

  lemma RefinementEmitted(c: Codec, p: ArucoParams)
    ensures HoldsRefinement(c, EmitAruco(c, p), p)
  {
  }

  lemma ArucoPresent(c: Codec, n: Node, p: ArucoParams)
    requires HoldsAruco(c, n, p)
    ensures HasAll(n, ARUCO_KEYS)
  {
  }

  lemma ArucoReadsBack(c: Codec, n: Node, p: ArucoParams)
    requires Lossless(c) && ArucoPrints(c, p) && HoldsAruco(c, n, p)
    ensures ParseAruco(c, n) == Some(p)
  {
    IntReadsBack(c, n, K_adaptive_thresh_win_size_min, p.winMin, 3);
    IntReadsBack(c, n, K_adaptive_thresh_win_size_max, p.winMax, 23);
    IntReadsBack(c, n, K_adaptive_thresh_win_size_step, p.winStep, 10);
    RealReadsBack(c, n, K_min_marker_perimeter_rate, p.minPerimeter, 0.03);
    RealReadsBack(c, n, K_max_marker_perimeter_rate, p.maxPerimeter, 4.0);
    RealReadsBack(c, n, K_polygonal_approx_accuracy_rate, p.polyAccuracy, 0.03);
    IntReadsBack(c, n, K_corner_refine_win_size, p.refineWin, 5);
    IntReadsBack(c, n, K_corner_refine_max_iterations, p.refineIterations, 30);
    RealReadsBack(c, n, K_corner_refine_min_accuracy, p.refineAccuracy, 0.1);
    RealReadsBack(c, n, K_error_correction_rate, p.errorCorrection, 0.6);
    RealReadsBack(c, n, K_apriltag_quad_decimate, p.quadDecimate, 0.0);
    BoolReadsBack(c, n, K_detect_inverted_marker, p.inverted, false);
  }

  lemma ArucoRoundTrip(c: Codec, p: ArucoParams)
    requires Lossless(c) && ArucoPrints(c, p)
    ensures ParseAruco(c, EmitAruco(c, p)) == Some(p) && HasAll(EmitAruco(c, p), ARUCO_KEYS)
  {
    ArucoEmitted(c, p);
    ArucoPresent(c, EmitAruco(c, p), p);
    ArucoReadsBack(c, EmitAruco(c, p), p);
  }

  lemma {:induction false} RealsRoundTrip(c: Codec, xs: seq<real>)
    requires AllPrint(c, xs)
    ensures RealItems(c, EmitReals(c, xs)) == Some(xs)
  {
    if xs != [] {
      RealsRoundTrip(c, xs[1..]);
      assert Prints(c, xs[0]);
      assert EmitReals(c, xs)[1..] == EmitReals(c, xs[1..]);
      assert xs == [xs[0]] + xs[1..];
    }
  }

  lemma {:induction false} IntsRoundTrip(c: Codec, xs: seq<Int32>)
    requires Lossless(c)
    ensures IntItems(c, EmitInts(c, xs)) == Some(xs)
  {
    if xs != [] {
      IntsRoundTrip(c, xs[1..]);
      assert EmitInts(c, xs)[1..] == EmitInts(c, xs[1..]);
      assert xs == [xs[0]] + xs[1..];
    }
  }

  /** `n` with the value of one key replaced. */
  function With(n: Node, key: Key, v: Node): Node {
    if n.Mapping? then Mapping(n.entries[key := v]) else n
  }

  /** The node spells out every value but `dist_coeffs`. */
  predicate HoldsCamera(c: Codec, n: Node, p: CameraConfig) {
    && Lookup(n, K_fx) == Scalar(c.printReal(p.fx))
    && Lookup(n, K_fy) == Scalar(c.printReal(p.fy))
    && Lookup(n, K_cx) == Scalar(c.printReal(p.cx))
    && Lookup(n, K_cy) == Scalar(c.printReal(p.cy))
    && Lookup(n, K_distortion_model) == Scalar(p.model)
    && Lookup(n, K_undistort) == Scalar(c.printBool(p.undistort))
    && Lookup(n, K_calib_width) == Scalar(c.printInt(p.calibWidth))
    && Lookup(n, K_calib_height) == Scalar(c.printInt(p.calibHeight))
  }

  lemma CameraEmitted(c: Codec, p: CameraConfig, coeffs: Node)
    ensures HoldsCamera(c, With(EmitCamera(c, p), K_dist_coeffs, coeffs), p)
    ensures Lookup(With(EmitCamera(c, p), K_dist_coeffs, coeffs), K_dist_coeffs) == coeffs
  {
  }

  lemma CameraReadsBack(c: Codec, n: Node, p: CameraConfig)
    requires Lossless(c) && CameraPrints(c, p) && HoldsCamera(c, n, p)
    requires !Absent(n, K_dist_coeffs) && ParseCoeffs(c, n) == Some(p.distCoeffs)
    ensures ParseCamera(c, n) == Some(p) && HasAll(n, CAMERA_KEYS)
  {
    hide ParseCoeffs;
    RealReadsBack(c, n, K_fx, p.fx, 0.0);
    RealReadsBack(c, n, K_fy, p.fy, 0.0);
    RealReadsBack(c, n, K_cx, p.cx, 0.0);
    RealReadsBack(c, n, K_cy, p.cy, 0.0);
    BoolReadsBack(c, n, K_undistort, p.undistort, false);
    IntReadsBack(c, n, K_calib_width, p.calibWidth, 0);
    IntReadsBack(c, n, K_calib_height, p.calibHeight, 0);
  }

  lemma CameraRoundTrip(c: Codec, p: CameraConfig)
    requires Lossless(c) && CameraPrints(c, p)
    ensures ParseCamera(c, EmitCamera(c, p)) == Some(p) && HasAll(EmitCamera(c, p), CAMERA_KEYS)
  {
    var coeffs := Sequence(EmitReals(c, p.distCoeffs));
    CameraEmitted(c, p, coeffs);
    assert With(EmitCamera(c, p), K_dist_coeffs, coeffs) == EmitCamera(c, p);
    RealsRoundTrip(c, p.distCoeffs);
    CameraReadsBack(c, EmitCamera(c, p), p);
  }

  predicate HoldsDetector(c: Codec, n: Node, p: DetectorConfig) {
    && Lookup(n, K_family) == Scalar(p.family)
    && Lookup(n, K_max_reproj_error_px) == Scalar(c.printReal(p.maxReproj))
    && Lookup(n, K_min_range_m) == Scalar(c.printReal(p.minRange))
    && Lookup(n, K_max_range_m) == Scalar(c.printReal(p.maxRange))
    && Lookup(n, K_params) == EmitAruco(c, p.params)
  }

  lemma DetectorEmitted(c: Codec, p: DetectorConfig)
    ensures HoldsDetector(c, EmitDetector(c, p), p)
  {
  }

  lemma DetectorPresent(c: Codec, n: Node, p: DetectorConfig)
    requires HoldsDetector(c, n, p)
    ensures HasAll(n, DETECTOR_KEYS)
  {
  }

  lemma DetectorReadsBack(c: Codec, n: Node, p: DetectorConfig)
    requires Lossless(c) && DetectorPrints(c, p) && HoldsDetector(c, n, p)
    ensures ParseDetector(c, n) == Some(p)
  {
    ArucoRoundTrip(c, p.params);
    RealReadsBack(c, n, K_max_reproj_error_px, p.maxReproj, 6.0);
    RealReadsBack(c, n, K_min_range_m, p.minRange, 0.05);
    RealReadsBack(c, n, K_max_range_m, p.maxRange, 100.0);
  }

  lemma DetectorRoundTrip(c: Codec, p: DetectorConfig)
    requires Lossless(c) && DetectorPrints(c, p)
    ensures ParseDetector(c, EmitDetector(c, p)) == Some(p) && HasAll(EmitDetector(c, p), DETECTOR_KEYS)
  {
    DetectorEmitted(c, p);
    DetectorPresent(c, EmitDetector(c, p), p);
    DetectorReadsBack(c, EmitDetector(c, p), p);
  }

  ghost predicate TagIdsOk(sizes: seq<TagSize>) {
    forall i :: 0 <= i < |sizes| ==> sizes[i].id >= 0
  }

  lemma {:induction false} TagSizesRoundTrip(c: Codec, sizes: seq<TagSize>, default: real)
    requires Lossless(c) && SizesPrint(c, sizes) && TagIdsOk(sizes)
    ensures TagSizes(c, EmitTagSizes(c, sizes), default) == Some(sizes)
  {
    if sizes != [] {
      TagSizesRoundTrip(c, sizes[1..], default);
      assert EmitTagSizes(c, sizes)[1..] == EmitTagSizes(c, sizes[1..]);
      assert sizes == [sizes[0]] + sizes[1..];
    }
  }

  lemma TagsRoundTrip(c: Codec, p: TagsConfig)
    requires Lossless(c) && TagsPrint(c, p) && TagIdsOk(p.sizes)
    ensures ParseTags(c, EmitTags(c, p)) == Some(p) && HasAll(EmitTags(c, p), TAGS_KEYS)
  {
    TagSizesRoundTrip(c, p.sizes, p.defaultSize);
    IntsRoundTrip(c, p.acceptIds);
  }

  predicate HoldsStream(c: Codec, n: Node, p: StreamConfig) {
    && Lookup(n, K_camera_id) == Scalar(p.cameraId)
    && Lookup(n, K_gst) == Scalar(p.gst)
    && Lookup(n, K_frame_width) == Scalar(c.printInt(p.frameWidth))
    && Lookup(n, K_frame_height) == Scalar(c.printInt(p.frameHeight))
    && Lookup(n, K_fps) == Scalar(c.printInt(p.fps))
    && Lookup(n, K_watchdog_timeout_sec) == Scalar(c.printReal(p.watchdogSec))
    && Lookup(n, K_detect_fps) == Scalar(c.printReal(p.detectFps))
    && Lookup(n, K_exit_on_eos) == Scalar(c.printBool(p.exitOnEos))
  }

  lemma StreamEmitted(c: Codec, s: StreamConfig)
    ensures HoldsStream(c, EmitStream(c, s), s)
    ensures Lookup(EmitStream(c, s), K_camera) == EmitCamera(c, s.camera)
    ensures Lookup(EmitStream(c, s), K_detector) == EmitDetector(c, s.detector)
    ensures Lookup(EmitStream(c, s), K_tags) == EmitTags(c, s.tags)
  {
    hide EmitCamera, EmitDetector, EmitTags;
  }

  lemma StreamPresent(c: Codec, n: Node, s: StreamConfig)
    requires HoldsStream(c, n, s)
    ensures HasAll(n, STREAM_KEYS)
  {
  }

  lemma StreamKeysReadBack(c: Codec, n: Node, s: StreamConfig)
    requires Lossless(c) && Prints(c, s.watchdogSec) && Prints(c, s.detectFps) && HoldsStream(c, n, s)
    ensures ParseStreamKeys(c, n).Some?
    ensures StreamOf(ParseStreamKeys(c, n).value, Sections(s.camera, s.detector, s.tags)) == s
  {
    IntReadsBack(c, n, K_frame_width, s.frameWidth, 1280);
    IntReadsBack(c, n, K_frame_height, s.frameHeight, 720);
    IntReadsBack(c, n, K_fps, s.fps, 30);
    RealReadsBack(c, n, K_watchdog_timeout_sec, s.watchdogSec, 3.0);
    RealReadsBack(c, n, K_detect_fps, s.detectFps, 0.0);
    BoolReadsBack(c, n, K_exit_on_eos, s.exitOnEos, false);
  }

  lemma SectionsRoundTrip(c: Codec, s: StreamConfig, n: Node)
    requires Lossless(c) && StreamPrints(c, s) && TagIdsOk(s.tags.sizes)
    requires Lookup(n, K_camera) == EmitCamera(c, s.camera) && Lookup(n, K_detector) == EmitDetector(c, s.detector)
    requires Lookup(n, K_tags) == EmitTags(c, s.tags)
    ensures ParseSections(c, n) == Some(Sections(s.camera, s.detector, s.tags)) && CompleteSections(n)
  {
    CameraRoundTrip(c, s.camera);
    DetectorRoundTrip(c, s.detector);
    DetectorEmitted(c, s.detector);
    ArucoRoundTrip(c, s.detector.params);
    TagsRoundTrip(c, s.tags);
  }

  lemma StreamRoundTrip(c: Codec, s: StreamConfig)
    requires Lossless(c) && StreamPrints(c, s) && TagIdsOk(s.tags.sizes)
    ensures ParseStream(c, EmitStream(c, s)) == Some(s) && CompleteStream(EmitStream(c, s))
  {
    StreamEmitted(c, s);
    StreamPresent(c, EmitStream(c, s), s);
    StreamKeysReadBack(c, EmitStream(c, s), s);
    SectionsRoundTrip(c, s, EmitStream(c, s));
  }

  lemma NoStreamsRoundTrip(c: Codec)
    ensures ParseStreams(c, EmitStreams(c, [])) == Some([]) && CompleteStreams(EmitStreams(c, []))
  {
  }

  lemma StreamsCons(c: Codec, node: Node, nodes: seq<Node>, s: StreamConfig, streams: seq<StreamConfig>)
    requires ParseStream(c, node) == Some(s) && CompleteStream(node)
    requires ParseStreams(c, nodes) == Some(streams) && CompleteStreams(nodes)
    ensures ParseStreams(c, [node] + nodes) == Some([s] + streams) && CompleteStreams([node] + nodes)
  {
    hide ParseStream, CompleteStream;
    assert ([node] + nodes)[1..] == nodes;
  }

  lemma {:induction false} StreamsRoundTrip(c: Codec, streams: seq<StreamConfig>)
    requires Lossless(c)
    requires forall i :: 0 <= i < |streams| ==> StreamPrints(c, streams[i]) && TagIdsOk(streams[i].tags.sizes)
    ensures ParseStreams(c, EmitStreams(c, streams)) == Some(streams)
    ensures CompleteStreams(EmitStreams(c, streams)) && |EmitStreams(c, streams)| == |streams|
  {
    hide ParseStream, EmitStream, CompleteStream, TagIdsOk, ParseStreams, CompleteStreams, StreamPrints, Lossless;
    if streams != [] {
      StreamRoundTrip(c, streams[0]);
      StreamsRoundTrip(c, streams[1..]);
      StreamsCons(c, EmitStream(c, streams[0]), EmitStreams(c, streams[1..]), streams[0], streams[1..]);
      assert EmitStreams(c, streams) == [EmitStream(c, streams[0])] + EmitStreams(c, streams[1..]);
      assert streams == [streams[0]] + streams[1..];
    } else {
      NoStreamsRoundTrip(c);
    }
  }

  lemma UdpRoundTrip(c: Codec, p: UdpConfig)
    requires Lossless(c) && Prints(c, p.heartbeatHz)
    ensures ParseUdp(c, EmitUdp(c, p)) == Some(p) && HasAll(EmitUdp(c, p), UDP_KEYS)
  {
  }

  lemma LoggingRoundTrip(c: Codec, p: LoggingConfig)
    requires Lossless(c)
    ensures ParseLogging(c, EmitLogging(c, p)) == Some(p) && HasAll(EmitLogging(c, p), LOGGING_KEYS)
  {
  }

  /** Every configuration with a stream, distinct camera ids, non-negative tag ids and
      numbers that print back is read back from its own document, with nothing left
      to heal. */
  lemma RoundTrip(c: Codec, cfg: AppConfig)
    requires Lossless(c) && ConfigPrints(c, cfg)
    requires cfg.streams != [] && !HasDuplicate(cfg.streams)
    requires forall i :: 0 <= i < |cfg.streams| ==> TagIdsOk(cfg.streams[i].tags.sizes)
    ensures Loads(c, Emit(c, cfg), cfg) && Complete(Emit(c, cfg))
  {
    StreamsRoundTrip(c, cfg.streams);
    UdpRoundTrip(c, cfg.udp);
    LoggingRoundTrip(c, cfg.logging);
    DocumentSections(c, cfg);
    FromSections(c, Emit(c, cfg), cfg, EmitStreams(c, cfg.streams));
  }

  lemma FromSections(c: Codec, root: Node, cfg: AppConfig, streams: seq<Node>)
    requires Lookup(root, K_streams) == Sequence(streams) && streams != [] && CompleteStreams(streams)
    requires ParseStreams(c, streams) == Some(cfg.streams) && !HasDuplicate(cfg.streams)
    requires ParseUdp(c, Lookup(root, K_udp)) == Some(cfg.udp) && HasAll(Lookup(root, K_udp), UDP_KEYS)
    requires ParseLogging(c, Lookup(root, K_logging)) == Some(cfg.logging)
    requires HasAll(Lookup(root, K_logging), LOGGING_KEYS)
    requires !Absent(root, K_udp) && !Absent(root, K_logging)
    ensures Loads(c, root, cfg) && Complete(root)
  {
  }

  lemma DocumentSections(c: Codec, cfg: AppConfig)
    ensures Lookup(Emit(c, cfg), K_streams) == Sequence(EmitStreams(c, cfg.streams))
    ensures Lookup(Emit(c, cfg), K_udp) == EmitUdp(c, cfg.udp) && !Absent(Emit(c, cfg), K_udp)
    ensures Lookup(Emit(c, cfg), K_logging) == EmitLogging(c, cfg.logging) && !Absent(Emit(c, cfg), K_logging)
  {
  }

  lemma {:induction false} ParsedSizesHaveIds(c: Codec, items: seq<Node>, default: real)
    requires TagSizes(c, items, default).Some?
    ensures TagIdsOk(TagSizes(c, items, default).value)
  {
    if items != [] {
      ParsedSizesHaveIds(c, items[1..], default);
    }
  }

  lemma ParsedStreamHasIds(c: Codec, n: Node)
    requires ParseStream(c, n).Some?
    ensures TagIdsOk(ParseStream(c, n).value.tags.sizes)
  {
    var list := Lookup(Lookup(n, K_tags), K_sizes);
    if list.Sequence? {
      ParsedSizesHaveIds(c, list.items, ParseTags(c, Lookup(n, K_tags)).value.defaultSize);
    }
  }

  lemma {:induction false} ParsedStreamsHaveIds(c: Codec, items: seq<Node>)
    requires ParseStreams(c, items).Some?
    ensures |ParseStreams(c, items).value| == |items|
    ensures forall i :: 0 <= i < |items| ==> TagIdsOk(ParseStreams(c, items).value[i].tags.sizes)
  {
    if items != [] {
      ParsedStreamHasIds(c, items[0]);
      ParsedStreamsHaveIds(c, items[1..]);
    }
  }

  /** The result of loading is unique, and its camera ids are distinct. */
  lemma LoadIsFunctional(c: Codec, root: Node, a: AppConfig, b: AppConfig)
    requires Loads(c, root, a) && Loads(c, root, b)
    ensures a == b
  {
  }

  /** For every document that loads: the written-back document loads to the very
      same configuration and needs no healing, so healing twice changes nothing
      and no recognised value is lost. */
  lemma HealRoundTrip(c: Codec, root: Node, cfg: AppConfig)
    requires Lossless(c) && Loads(c, root, cfg)
    ensures Loads(c, Emit(c, cfg), cfg) && Complete(Emit(c, cfg))
    ensures forall again :: Loads(c, Emit(c, cfg), again) ==> again == cfg && Emit(c, again) == Emit(c, cfg)
  {
    ParsedStreamsHaveIds(c, Lookup(root, K_streams).items);
    LoadedPrints(c, root, cfg);
    RoundTrip(c, cfg);
    forall again | Loads(c, Emit(c, cfg), again) ensures again == cfg {
      LoadIsFunctional(c, Emit(c, cfg), again, cfg);
    }
  }

  // ----- what the healed flag misses -----

  /** Everything `full` holds has something at the same place in `n`. */
  predicate SpellsOut(n: Node, full: Node)
    decreases full
  {
    match full
    case Undefined => true
    case Null => !n.Undefined?
    case Scalar(_) => !n.Undefined?
    case Sequence(items) =>
      n.Sequence? && |n.items| == |items| && forall i :: 0 <= i < |items| ==> SpellsOut(n.items[i], items[i])
    case Mapping(entries) => forall key :: key in entries ==> SpellsOut(Lookup(n, key), entries[key])
  }

  /** A value that is present and no list, for which zeros are read. */
  predicate SilentCamera(n: Node) {
    !Absent(n, K_dist_coeffs) && !Lookup(n, K_dist_coeffs).Sequence?
  }

  /** A list that is missing, or an override without its size. */
  predicate SilentTags(n: Node) {
    || !Lookup(n, K_sizes).Sequence?
    || !Lookup(n, K_accept_ids).Sequence?
    || LacksSize(Lookup(n, K_sizes).items)
  }

  predicate LacksSize(items: seq<Node>) {
    exists i :: 0 <= i < |items| && Absent(items[i], K_size_m)
  }

  predicate SilentStream(n: Node) {
    SilentCamera(Lookup(n, K_camera)) || SilentTags(Lookup(n, K_tags))
  }

  predicate SilentStreams(items: seq<Node>) {
    exists i :: 0 <= i < |items| && SilentStream(items[i])
  }

  /** A default is filled in that the flag does not report. */
  predicate Silent(root: Node) {
    Lookup(root, K_streams).Sequence? && SilentStreams(Lookup(root, K_streams).items)
  }

  lemma ScalarsSpelled(n: Node, full: Node, plain: set<Key>)
    requires full.Mapping? && plain <= full.entries.Keys
    requires forall key :: key in plain ==> Lookup(full, key).Scalar?
    ensures SpellsOut(n, full) <==>
            HasAll(n, plain) && forall key :: key in full.entries.Keys - plain ==>
              SpellsOut(Lookup(n, key), full.entries[key])
  {
  }

  lemma {:induction false} RealsSpelled(c: Codec, items: seq<Node>, xs: seq<real>)
    requires RealItems(c, items) == Some(xs)
    ensures SpellsOut(Sequence(items), Sequence(EmitReals(c, xs)))
  {
    if items != [] {
      RealsSpelled(c, items[1..], xs[1..]);
      SpelledCons(items, EmitReals(c, xs));
    }
  }

  lemma {:induction false} IntsSpelled(c: Codec, items: seq<Node>, xs: seq<Int32>)
    requires IntItems(c, items) == Some(xs)
    ensures SpellsOut(Sequence(items), Sequence(EmitInts(c, xs)))
  {
    if items != [] {
      IntsSpelled(c, items[1..], xs[1..]);
      SpelledCons(items, EmitInts(c, xs));
    }
  }

  /** Lists spell each other out item by item. */
  lemma SpelledCons(items: seq<Node>, full: seq<Node>)
    requires items != [] && full != []
    ensures SpellsOut(Sequence(items), Sequence(full)) <==>
            SpellsOut(items[0], full[0]) && SpellsOut(Sequence(items[1..]), Sequence(full[1..]))
  {
    if SpellsOut(items[0], full[0]) && SpellsOut(Sequence(items[1..]), Sequence(full[1..])) {
      forall i | 0 <= i < |full| ensures |items| == |full| && SpellsOut(items[i], full[i]) {
        if i > 0 {
          assert items[i] == items[1..][i - 1] && full[i] == full[1..][i - 1];
        }
      }
    }
    if SpellsOut(Sequence(items), Sequence(full)) {
      forall i | 0 <= i < |full| - 1 ensures SpellsOut(items[1..][i], full[1..][i]) {
        assert SpellsOut(items[i + 1], full[i + 1]);
      }
    }
  }

  lemma CameraSpelled(c: Codec, n: Node, p: CameraConfig)
    requires ParseCamera(c, n) == Some(p)
    ensures SpellsOut(n, EmitCamera(c, p)) <==> HasAll(n, CAMERA_KEYS) && !SilentCamera(n)
  {
    hide ParseCamera, EmitCamera, EmitReals, SpellsOut;
    CameraByKeys(c, n, p);
    CoeffsSpelled(c, n, p);
    assert HasAll(n, CAMERA_KEYS) <==> HasAll(n, CAMERA_KEYS - {K_dist_coeffs}) && !Absent(n, K_dist_coeffs);
  }

  lemma CameraByKeys(c: Codec, n: Node, p: CameraConfig)
    ensures SpellsOut(n, EmitCamera(c, p)) <==>
            && HasAll(n, CAMERA_KEYS - {K_dist_coeffs})
            && SpellsOut(Lookup(n, K_dist_coeffs), Sequence(EmitReals(c, p.distCoeffs)))
  {
    hide HasAll, EmitReals;
    var plain := CAMERA_KEYS - {K_dist_coeffs};
    ScalarsSpelled(n, EmitCamera(c, p), plain);
    assert EmitCamera(c, p).entries.Keys - plain == {K_dist_coeffs};
  }

  lemma CoeffsSpelled(c: Codec, n: Node, p: CameraConfig)
    requires ParseCamera(c, n) == Some(p)
    ensures SpellsOut(Lookup(n, K_dist_coeffs), Sequence(EmitReals(c, p.distCoeffs))) <==>
            Lookup(n, K_dist_coeffs).Sequence?
  {
    if Lookup(n, K_dist_coeffs).Sequence? {
      RealsSpelled(c, Lookup(n, K_dist_coeffs).items, p.distCoeffs);
    }
  }

  lemma ArucoSpelled(c: Codec, n: Node, p: ArucoParams)
    ensures SpellsOut(n, EmitAruco(c, p)) <==> HasAll(n, ARUCO_KEYS)
  {
    hide EmitAruco, HoldsAruco;
    ArucoIsKeys(c, p);
    ArucoEmitted(c, p);
    ArucoIsScalars(c, EmitAruco(c, p), p);
    ScalarsSpelled(n, EmitAruco(c, p), ARUCO_KEYS);
  }

  lemma ArucoIsKeys(c: Codec, p: ArucoParams)
    ensures EmitAruco(c, p).Mapping? && EmitAruco(c, p).entries.Keys == ARUCO_KEYS
  {
  }

  lemma ArucoIsScalars(c: Codec, n: Node, p: ArucoParams)
    requires HoldsAruco(c, n, p)
    ensures forall key :: key in ARUCO_KEYS ==> Lookup(n, key).Scalar?
  {
  }

  lemma DetectorByKeys(c: Codec, n: Node, p: DetectorConfig)
    ensures SpellsOut(n, EmitDetector(c, p)) <==>
            HasAll(n, DETECTOR_KEYS - {K_params}) && SpellsOut(Lookup(n, K_params), EmitAruco(c, p.params))
  {
    hide EmitAruco;
    var plain := DETECTOR_KEYS - {K_params};
    ScalarsSpelled(n, EmitDetector(c, p), plain);
    assert EmitDetector(c, p).entries.Keys - plain == {K_params};
  }

  lemma DetectorSpelled(c: Codec, n: Node, p: DetectorConfig)
    ensures SpellsOut(n, EmitDetector(c, p)) <==>
            HasAll(n, DETECTOR_KEYS) && HasAll(Lookup(n, K_params), ARUCO_KEYS)
  {
    DetectorByKeys(c, n, p);
    ArucoSpelled(c, Lookup(n, K_params), p.params);
    NothingInUndefined(Lookup(n, K_params), K_corner_refine, ARUCO_KEYS);
    hide EmitDetector, EmitAruco, SpellsOut;
    assert HasAll(n, DETECTOR_KEYS) <==> HasAll(n, DETECTOR_KEYS - {K_params}) && !Absent(n, K_params);
  }

  /** An override that reads has its id, so only its size can be missing. */
  lemma TagSizeSpelled(c: Codec, e: Node, default: real)
    requires ParseTagSize(c, e, default).Some?
    ensures SpellsOut(e, EmitTagSize(c, ParseTagSize(c, e, default).value)) <==> !Absent(e, K_size_m)
  {
    var full := EmitTagSize(c, ParseTagSize(c, e, default).value);
    ScalarsSpelled(e, full, {K_id, K_size_m});
    assert full.entries.Keys == {K_id, K_size_m};
    assert !Absent(e, K_id);
  }

  lemma {:induction false} TagSizesSpelled(c: Codec, items: seq<Node>, sizes: seq<TagSize>, default: real)
    requires TagSizes(c, items, default) == Some(sizes)
    ensures SpellsOut(Sequence(items), Sequence(EmitTagSizes(c, sizes))) <==> !LacksSize(items)
  {
    if items != [] {
      TagSizeSpelled(c, items[0], default);
      TagSizesSpelled(c, items[1..], sizes[1..], default);
      SpelledCons(items, EmitTagSizes(c, sizes));
      LacksSizeCons(items);
    }
  }

  lemma LacksSizeCons(items: seq<Node>)
    requires items != []
    ensures LacksSize(items) <==> Absent(items[0], K_size_m) || LacksSize(items[1..])
  {
    if LacksSize(items) {
      var i :| 0 <= i < |items| && Absent(items[i], K_size_m);
      assert i > 0 ==> items[1..][i - 1] == items[i];
    }
    if LacksSize(items[1..]) {
      var i :| 0 <= i < |items[1..]| && Absent(items[1..][i], K_size_m);
      assert items[i + 1] == items[1..][i];
    }
  }

  lemma TagsSpelled(c: Codec, n: Node, p: TagsConfig)
    requires ParseTags(c, n) == Some(p)
    ensures SpellsOut(n, EmitTags(c, p)) <==> HasAll(n, TAGS_KEYS) && !SilentTags(n)
  {
    ScalarsSpelled(n, EmitTags(c, p), TAGS_KEYS);
    assert EmitTags(c, p).entries.Keys - TAGS_KEYS == {K_sizes, K_accept_ids};
    if Lookup(n, K_sizes).Sequence? {
      TagSizesSpelled(c, Lookup(n, K_sizes).items, p.sizes, p.defaultSize);
    }
    if Lookup(n, K_accept_ids).Sequence? {
      IntsSpelled(c, Lookup(n, K_accept_ids).items, p.acceptIds);
    }
  }

  lemma StreamSpelled(c: Codec, n: Node, s: StreamConfig)
    requires ParseStream(c, n) == Some(s)
    ensures SpellsOut(n, EmitStream(c, s)) <==> CompleteStream(n) && !SilentStream(n)
  {
    hide ParseStream, ParseCamera, ParseTags, EmitStream, EmitCamera, EmitDetector, EmitTags, SpellsOut, SilentCamera,
      SilentTags, HasAll;
    var camera, detector, tags := Lookup(n, K_camera), Lookup(n, K_detector), Lookup(n, K_tags);
    SectionsParsed(c, n, s);
    StreamBySections(c, n, s);
    CameraSpelled(c, camera, s.camera);
    DetectorSpelled(c, detector, s.detector);
    TagsSpelled(c, tags, s.tags);
    NothingInUndefined(camera, K_fx, CAMERA_KEYS);
    NothingInUndefined(detector, K_family, DETECTOR_KEYS);
    NothingInUndefined(tags, K_default_size_m, TAGS_KEYS);
  }

  lemma NothingInUndefined(n: Node, key: Key, keys: set<Key>)
    requires key in keys
    ensures HasAll(n, keys) ==> !n.Undefined?
  {
    assert n.Undefined? ==> Absent(n, key);
  }

  lemma SectionsParsed(c: Codec, n: Node, s: StreamConfig)
    requires ParseStream(c, n) == Some(s)
    ensures ParseCamera(c, Lookup(n, K_camera)) == Some(s.camera)
    ensures ParseTags(c, Lookup(n, K_tags)) == Some(s.tags)
  {
    hide ParseCamera, ParseDetector, ParseTags;
  }

  lemma StreamBySections(c: Codec, n: Node, s: StreamConfig)
    ensures SpellsOut(n, EmitStream(c, s)) <==>
            && HasAll(n, STREAM_KEYS)
            && SpellsOut(Lookup(n, K_camera), EmitCamera(c, s.camera))
            && SpellsOut(Lookup(n, K_detector), EmitDetector(c, s.detector))
            && SpellsOut(Lookup(n, K_tags), EmitTags(c, s.tags))
  {
    hide EmitCamera, EmitDetector, EmitTags, EmitStream, HasAll, HoldsStream;
    var full := EmitStream(c, s);
    StreamEmitted(c, s);
    StreamIsKeys(c, s);
    StreamIsScalars(c, full, s);
    ScalarsSpelled(n, full, STREAM_KEYS);
    assert full.entries.Keys - STREAM_KEYS == {K_camera, K_detector, K_tags};
  }

  lemma StreamIsKeys(c: Codec, s: StreamConfig)
    ensures EmitStream(c, s).Mapping?
    ensures EmitStream(c, s).entries.Keys == STREAM_KEYS + {K_camera, K_detector, K_tags}
  {
    hide EmitCamera, EmitDetector, EmitTags;
  }

  lemma StreamIsScalars(c: Codec, n: Node, s: StreamConfig)
    requires HoldsStream(c, n, s)
    ensures forall key :: key in STREAM_KEYS ==> Lookup(n, key).Scalar?
  {
  }

  lemma {:induction false} StreamsSpelled(c: Codec, items: seq<Node>, streams: seq<StreamConfig>)
    requires ParseStreams(c, items) == Some(streams)
    ensures SpellsOut(Sequence(items), Sequence(EmitStreams(c, streams))) <==>
            CompleteStreams(items) && !SilentStreams(items)
  {
    hide ParseStream, EmitStream, CompleteStream, SilentStream;
    if items != [] {
      StreamSpelled(c, items[0], streams[0]);
      StreamsSpelled(c, items[1..], streams[1..]);
      SpelledCons(items, EmitStreams(c, streams));
      SilentStreamsCons(items);
    }
  }

  lemma SilentStreamsCons(items: seq<Node>)
    requires items != []
    ensures SilentStreams(items) <==> SilentStream(items[0]) || SilentStreams(items[1..])
  {
    hide SilentStream;
    if SilentStreams(items) {
      var i :| 0 <= i < |items| && SilentStream(items[i]);
      assert i > 0 ==> items[1..][i - 1] == items[i];
    }
    if SilentStreams(items[1..]) {
      var i :| 0 <= i < |items[1..]| && SilentStream(items[1..][i]);
      assert items[i + 1] == items[1..][i];
    }
  }

  lemma UdpSpelled(c: Codec, n: Node, p: UdpConfig)
    ensures SpellsOut(n, EmitUdp(c, p)) <==> !n.Undefined? && HasAll(n, UDP_KEYS)
  {
    ScalarsSpelled(n, EmitUdp(c, p), UDP_KEYS);
    assert EmitUdp(c, p).entries.Keys == UDP_KEYS;
    NothingInUndefined(n, K_enabled, UDP_KEYS);
  }

  lemma LoggingSpelled(c: Codec, n: Node, p: LoggingConfig)
    ensures SpellsOut(n, EmitLogging(c, p)) <==> !n.Undefined? && HasAll(n, LOGGING_KEYS)
  {
    ScalarsSpelled(n, EmitLogging(c, p), LOGGING_KEYS);
    assert EmitLogging(c, p).entries.Keys == LOGGING_KEYS;
    NothingInUndefined(n, K_verbose, LOGGING_KEYS);
  }

  lemma DocumentBySections(c: Codec, root: Node, cfg: AppConfig)
    ensures SpellsOut(root, Emit(c, cfg)) <==>
            && SpellsOut(Lookup(root, K_streams), Sequence(EmitStreams(c, cfg.streams)))
            && SpellsOut(Lookup(root, K_udp), EmitUdp(c, cfg.udp))
            && SpellsOut(Lookup(root, K_logging), EmitLogging(c, cfg.logging))
  {
    hide EmitStreams, EmitUdp, EmitLogging;
    var full := Emit(c, cfg);
    assert full.entries.Keys == {K_streams, K_udp, K_logging};
  }

  /** For every document that loads: what the completed document holds is all there
      already exactly when no key read through the healer is absent and nothing is
      read past it. So the flag is never set without cause, and it misses a filled
      default exactly on the complete documents that are silent. */
  lemma HealedExactly(c: Codec, root: Node, cfg: AppConfig)
    requires Loads(c, root, cfg)
    ensures SpellsOut(root, Emit(c, cfg)) <==> Complete(root) && !Silent(root)
  {
    hide ParseStreams, ParseUdp, ParseLogging, CompleteStreams, SilentStreams, Emit, EmitUdp, EmitLogging, SpellsOut;
    DocumentBySections(c, root, cfg);
    StreamsSpelled(c, Lookup(root, K_streams).items, cfg.streams);
    ListIsItsItems(root);
    UdpSpelled(c, Lookup(root, K_udp), cfg.udp);
    LoggingSpelled(c, Lookup(root, K_logging), cfg.logging);
  }

  lemma ListIsItsItems(root: Node)
    requires HasStreamList(root)
    ensures Lookup(root, K_streams) == Sequence(Lookup(root, K_streams).items)
  {
  }

  /** A document of one stream. */
  function OneStream(c: Codec, stream: Node, udp: UdpConfig, logging: LoggingConfig): Node {
    Mapping(map[
        K_streams := Sequence([stream]), K_udp := EmitUdp(c, udp), K_logging := EmitLogging(c, logging)])
  }

  /** The stream of `s`, whose override for `id` comes without a size. */
  function SizelessStream(c: Codec, s: StreamConfig, id: Int32): Node {
    With(EmitStream(c, s), K_tags, SizelessTagsNode(c, s.tags, id))
  }

  function SizelessTagsNode(c: Codec, p: TagsConfig, id: Int32): Node {
    With(EmitTags(c, p), K_sizes, Sequence([Mapping(map[K_id := Scalar(c.printInt(id))])]))
  }

  /** The stream of `s`, whose `dist_coeffs` is `v`. */
  function CoeffsStream(c: Codec, s: StreamConfig, v: Node): Node {
    With(EmitStream(c, s), K_camera, With(EmitCamera(c, s.camera), K_dist_coeffs, v))
  }

  lemma OneStreamLoads(c: Codec, stream: Node, s: StreamConfig, udp: UdpConfig, logging: LoggingConfig)
    requires Lossless(c) && Prints(c, udp.heartbeatHz) && ParseStream(c, stream) == Some(s) && CompleteStream(stream)
    ensures Loads(c, OneStream(c, stream, udp, logging), AppConfig([s], udp, logging))
    ensures Complete(OneStream(c, stream, udp, logging))
    ensures Silent(OneStream(c, stream, udp, logging)) <==> SilentStream(stream)
  {
    hide ParseStream, CompleteStream, SilentStream, ParseUdp, ParseLogging;
    var root := OneStream(c, stream, udp, logging);
    NoStreamsRoundTrip(c);
    assert EmitStreams(c, []) == [];
    StreamsCons(c, stream, [], s, []);
    assert [stream] + [] == [stream] && [s] + [] == [s];
    UdpRoundTrip(c, udp);
    LoggingRoundTrip(c, logging);
    FromSections(c, root, AppConfig([s], udp, logging), [stream]);
    assert SilentStream(stream) ==> SilentStream(Lookup(root, K_streams).items[0]);
  }

  lemma StreamReads(c: Codec, n: Node, s: StreamConfig)
    requires Lossless(c) && StreamPrints(c, s) && HoldsStream(c, n, s)
    requires !Absent(n, K_camera) && !Absent(n, K_detector) && !Absent(n, K_tags)
    requires ParseCamera(c, Lookup(n, K_camera)) == Some(s.camera) && HasAll(Lookup(n, K_camera), CAMERA_KEYS)
    requires Lookup(n, K_detector) == EmitDetector(c, s.detector)
    requires ParseTags(c, Lookup(n, K_tags)) == Some(s.tags) && HasAll(Lookup(n, K_tags), TAGS_KEYS)
    ensures ParseStream(c, n) == Some(s) && CompleteStream(n)
  {
    hide ParseCamera, ParseDetector, ParseTags, EmitDetector, EmitAruco, HoldsStream, ParseStreamKeys, StreamOf;
    StreamPresent(c, n, s);
    StreamKeysReadBack(c, n, s);
    DetectorRoundTrip(c, s.detector);
    DetectorEmitted(c, s.detector);
    ArucoRoundTrip(c, s.detector.params);
    assert ParseSections(c, n) == Some(Sections(s.camera, s.detector, s.tags));
  }

  /** A stream with its own keys and its detector as emitted. */
  lemma WithKeeps(c: Codec, s: StreamConfig, key: Key, v: Node)
    requires key == K_camera || key == K_tags
    ensures HoldsStream(c, With(EmitStream(c, s), key, v), s)
    ensures Lookup(With(EmitStream(c, s), key, v), K_detector) == EmitDetector(c, s.detector)
    ensures Lookup(With(EmitStream(c, s), key, v), key) == v
    ensures key == K_tags ==> Lookup(With(EmitStream(c, s), key, v), K_camera) == EmitCamera(c, s.camera)
    ensures key == K_camera ==> Lookup(With(EmitStream(c, s), key, v), K_tags) == EmitTags(c, s.tags)
  {
    hide *;
    StreamEmitted(c, s);
    StreamIsKeys(c, s);
    WithElsewhere(EmitStream(c, s), key, v);
    HoldsElsewhere(c, EmitStream(c, s), With(EmitStream(c, s), key, v), s);
  }

  lemma WithElsewhere(n: Node, key: Key, v: Node)
    requires n.Mapping?
    ensures Lookup(With(n, key, v), key) == v
    ensures forall other :: other != key ==> Lookup(With(n, key, v), other) == Lookup(n, other)
  {
  }

  lemma HoldsElsewhere(c: Codec, n: Node, like: Node, s: StreamConfig)
    requires HoldsStream(c, n, s)
    requires forall key :: key !in {K_camera, K_tags} ==> Lookup(like, key) == Lookup(n, key)
    ensures HoldsStream(c, like, s)
  {
    hide Lookup;
  }

  /** A stream that loads complete but silent makes a document that does. */
  lemma SilentStreamUnreported(c: Codec, n: Node, s: StreamConfig, udp: UdpConfig, logging: LoggingConfig)
    requires Lossless(c) && Prints(c, udp.heartbeatHz)
    requires ParseStream(c, n) == Some(s) && CompleteStream(n) && SilentStream(n)
    ensures Unreported(c, OneStream(c, n, udp, logging), AppConfig([s], udp, logging))
  {
    hide ParseStream, CompleteStream, SilentStream, Emit, OneStream, Loads, Complete, SpellsOut;
    OneStreamLoads(c, n, s, udp, logging);
    HealedExactly(c, OneStream(c, n, udp, logging), AppConfig([s], udp, logging));
  }

  /** The document loads, a default is filled in, and the file is not reported healed. */
  ghost predicate Unreported(c: Codec, root: Node, cfg: AppConfig) {
    Loads(c, root, cfg) && Complete(root) && !SpellsOut(root, Emit(c, cfg))
  }

  /** `tags.sizes: [{id: ...}]` with nothing else missing: the size is filled from
      the default, and goes unreported. */
  lemma SizeFilledUnreported(c: Codec, s: StreamConfig, id: Int32, udp: UdpConfig, logging: LoggingConfig)
    requires Lossless(c) && StreamPrints(c, s) && Prints(c, udp.heartbeatHz)
    requires id >= 0 && s.tags.sizes == [TagSize(id, s.tags.defaultSize)]
    ensures Unreported(c, OneStream(c, SizelessStream(c, s, id), udp, logging), AppConfig([s], udp, logging))
  {
    hide Unreported, OneStream, EmitStream, EmitCamera, EmitDetector, ParseStream, ParseCamera, ParseTags, HasAll,
      HoldsStream, CompleteStream, SilentTags, SilentCamera;
    CameraRoundTrip(c, s.camera);
    SizelessTags(c, s.tags, id);
    WithKeeps(c, s, K_tags, SizelessTagsNode(c, s.tags, id));
    NothingInUndefined(EmitCamera(c, s.camera), K_fx, CAMERA_KEYS);
    NothingInUndefined(EmitDetector(c, s.detector), K_family, DETECTOR_KEYS);
    DetectorRoundTrip(c, s.detector);
    StreamReads(c, SizelessStream(c, s, id), s);
    SilentStreamUnreported(c, SizelessStream(c, s, id), s, udp, logging);
  }

  lemma SizelessTags(c: Codec, p: TagsConfig, id: Int32)
    requires Lossless(c) && TagsPrint(c, p) && id >= 0 && p.sizes == [TagSize(id, p.defaultSize)]
    ensures var n := SizelessTagsNode(c, p, id);
            ParseTags(c, n) == Some(p) && HasAll(n, TAGS_KEYS) && SilentTags(n)
  {
    var e := Mapping(map[K_id := Scalar(c.printInt(id))]);
    OneSizeReads(c, e, id, p.defaultSize);
    IntsRoundTrip(c, p.acceptIds);
    assert Absent([e][0], K_size_m);
  }

  lemma OneSizeReads(c: Codec, e: Node, id: Int32, default: real)
    requires Lossless(c) && id >= 0 && e == Mapping(map[K_id := Scalar(c.printInt(id))])
    ensures TagSizes(c, [e], default) == Some([TagSize(id, default)])
  {
    IntReadsBack(c, e, K_id, id, -1);
    assert ParseTagSize(c, e, default) == Some(TagSize(id, default));
    assert TagSizes(c, [], default) == Some([]);
    assert [e][1..] == [];
    assert [TagSize(id, default)] + [] == [TagSize(id, default)];
  }

  /** `dist_coeffs` there but no list, with nothing else missing: zeros are read in
      its place, and go unreported. */
  lemma CoeffsFilledUnreported(c: Codec, s: StreamConfig, v: Node, udp: UdpConfig, logging: LoggingConfig)
    requires Lossless(c) && StreamPrints(c, s) && Prints(c, udp.heartbeatHz)
    requires TagIdsOk(s.tags.sizes) && s.camera.distCoeffs == DEFAULT_COEFFS
    requires !v.Undefined? && !v.Sequence?
    ensures Unreported(c, OneStream(c, CoeffsStream(c, s, v), udp, logging), AppConfig([s], udp, logging))
  {
    hide Unreported, OneStream, EmitStream, EmitTags, EmitDetector, ParseStream, ParseCamera, ParseTags, HasAll,
      HoldsStream, CompleteStream, SilentTags, SilentCamera, TagIdsOk;
    CoeffsCamera(c, s.camera, v);
    TagsRoundTrip(c, s.tags);
    WithKeeps(c, s, K_camera, With(EmitCamera(c, s.camera), K_dist_coeffs, v));
    NothingInUndefined(EmitTags(c, s.tags), K_default_size_m, TAGS_KEYS);
    NothingInUndefined(EmitDetector(c, s.detector), K_family, DETECTOR_KEYS);
    DetectorRoundTrip(c, s.detector);
    StreamReads(c, CoeffsStream(c, s, v), s);
    SilentStreamUnreported(c, CoeffsStream(c, s, v), s, udp, logging);
  }

  lemma CoeffsCamera(c: Codec, p: CameraConfig, v: Node)
    requires Lossless(c) && CameraPrints(c, p) && p.distCoeffs == DEFAULT_COEFFS
    requires !v.Undefined? && !v.Sequence?
    ensures var n := With(EmitCamera(c, p), K_dist_coeffs, v);
            ParseCamera(c, n) == Some(p) && HasAll(n, CAMERA_KEYS) && SilentCamera(n)
  {
    var n := With(EmitCamera(c, p), K_dist_coeffs, v);
    CameraEmitted(c, p, v);
    hide EmitCamera;
    assert ParseCoeffs(c, n) == Some(DEFAULT_COEFFS);
    CameraReadsBack(c, n, p);
  }
}
