// The configuration structs and their semantic checks
// (include/app_config.h, src/app_config.cpp, AppConfig::validate).
module AppConfigs {

  type Int32 = i: int | -0x8000_0000 <= i < 0x8000_0000
  type Port = p: int | 0 <= p < 0x1_0000

  datatype ArucoParams = ArucoParams(
    winMin: Int32, winMax: Int32, winStep: Int32, minPerimeter: real, maxPerimeter: real, polyAccuracy: real,
    cornerRefine: string, refineWin: Int32, refineIterations: Int32, refineAccuracy: real,
    errorCorrection: real, quadDecimate: real, inverted: bool)

  datatype CameraConfig = CameraConfig(
    fx: real, fy: real, cx: real, cy: real, model: string, distCoeffs: seq<real>,
    undistort: bool, calibWidth: Int32, calibHeight: Int32) {

    predicate Valid() {
      fx > 0.0 && fy > 0.0 && cx > 0.0 && cy > 0.0
    }
  }

  datatype DetectorConfig = DetectorConfig(
    family: string, maxReproj: real, minRange: real, maxRange: real, params: ArucoParams)

  datatype TagSize = TagSize(id: Int32, size: real)

  datatype TagsConfig = TagsConfig(defaultSize: real, sizes: seq<TagSize>, acceptIds: seq<Int32>) {

    function SizeFor(id: int): real {
      FirstSize(sizes, id, defaultSize)
    }

    predicate Accepts(id: int) {
      acceptIds == [] || id in acceptIds
    }
  }

  function FirstSize(sizes: seq<TagSize>, id: int, default: real): real {
    if sizes == [] then default
    else if sizes[0].id == id then sizes[0].size
    else FirstSize(sizes[1..], id, default)
  }

  /** The size of a tag is the first override with its id, else the default; so it
      is positive whenever every size in the section is. */
  lemma {:induction false} FirstSizeMeaning(sizes: seq<TagSize>, id: int, default: real)
    ensures FirstSize(sizes, id, default) == default
      || exists i :: 0 <= i < |sizes| && sizes[i].id == id && sizes[i].size == FirstSize(sizes, id, default)
                     && forall j :: 0 <= j < i ==> sizes[j].id != id
    ensures (forall i :: 0 <= i < |sizes| ==> sizes[i].id != id) ==> FirstSize(sizes, id, default) == default
    ensures default > 0.0 && (forall i :: 0 <= i < |sizes| ==> sizes[i].size > 0.0) ==>
            FirstSize(sizes, id, default) > 0.0
  {
    if sizes != [] && sizes[0].id != id {
      FirstSizeMeaning(sizes[1..], id, default);
      if i :| 0 <= i < |sizes[1..]| && sizes[1..][i].id == id &&
              sizes[1..][i].size == FirstSize(sizes[1..], id, default)
              && forall j :: 0 <= j < i ==> sizes[1..][j].id != id
      {
        assert sizes[i + 1].id == id && sizes[i + 1].size == FirstSize(sizes, id, default);
        assert forall j :: 0 < j < i + 1 ==> sizes[j] == sizes[1..][j - 1];
      }
    }
  }

  datatype StreamConfig = StreamConfig(
    cameraId: string, gst: string, frameWidth: Int32, frameHeight: Int32, fps: Int32,
    watchdogSec: real, detectFps: real, exitOnEos: bool,
    camera: CameraConfig, detector: DetectorConfig, tags: TagsConfig)

  datatype UdpConfig = UdpConfig(enabled: bool, destIp: string, destPort: Port, heartbeatHz: real)

  datatype LoggingConfig = LoggingConfig(statsIntervalSec: Int32, verbose: bool)

  datatype AppConfig = AppConfig(streams: seq<StreamConfig>, udp: UdpConfig, logging: LoggingConfig)

  const KNOWN_FAMILIES: seq<string> := [
    "aruco_4x4_50", "aruco_4x4_100", "aruco_4x4_250", "aruco_4x4_1000",
    "aruco_5x5_50", "aruco_5x5_100", "aruco_5x5_250", "aruco_5x5_1000",
    "aruco_6x6_50", "aruco_6x6_100", "aruco_6x6_250", "aruco_6x6_1000",
    "aruco_7x7_50", "aruco_7x7_100", "aruco_7x7_250", "aruco_7x7_1000", "aruco_original",
    "apriltag_16h5", "apriltag_25h9", "apriltag_36h10", "apriltag_36h11"]

  /** std::string::find succeeds. */
  predicate Mentions(s: string, part: string) {
    part <= s || (s != "" && Mentions(s[1..], part))
  }

  /** A text mentions another exactly when that stands somewhere in it. */
  lemma {:induction false} MentionsExactly(s: string, part: string)
    ensures Mentions(s, part) <==> exists before, after :: s == before + part + after
  {
    if part <= s {
      assert s == [] + part + s[|part|..];
    } else if s != "" {
      MentionsExactly(s[1..], part);
      if before, after :| s[1..] == before + part + after {
        assert s == ([s[0]] + before) + part + after;
      }
      if before, after :| s == before + part + after {
        StartsLater(s, before, part, after);
        assert s[1..] == before[1..] + part + after;
      }
    }
  }

  lemma StartsLater(s: string, before: string, part: string, after: string)
    requires s == before + part + after && !(part <= s)
    ensures before != []
  {
    assert s[|before|..|before| + |part|] == part;
  }

  /** Four grids of four dictionary sizes, the original, and four of the AprilTag kind. */
  ghost predicate IsFamily(family: string) {
    || (exists d, n :: d in {"4x4", "5x5", "6x6", "7x7"} && n in {"50", "100", "250", "1000"} &&
          family == "aruco_" + d + "_" + n)
    || family in {"aruco_original", "apriltag_16h5", "apriltag_25h9", "apriltag_36h10", "apriltag_36h11"}
  }

  lemma FamiliesKnown(family: string)
    ensures family in KNOWN_FAMILIES <==> IsFamily(family)
  {
    FamiliesOf("4x4", 0);
    FamiliesOf("5x5", 4);
    FamiliesOf("6x6", 8);
    FamiliesOf("7x7", 12);
    FamiliesOther();
    hide KNOWN_FAMILIES;
    if family in KNOWN_FAMILIES {
      var i :| 0 <= i < |KNOWN_FAMILIES| && KNOWN_FAMILIES[i] == family;
      FamilyAt(i);
    }
    if IsFamily(family) {
      AprilTagsKnown();
    }
  }

  lemma AprilTagsKnown()
    ensures "aruco_original" in KNOWN_FAMILIES && "apriltag_16h5" in KNOWN_FAMILIES && "apriltag_25h9" in KNOWN_FAMILIES
    ensures "apriltag_36h10" in KNOWN_FAMILIES && "apriltag_36h11" in KNOWN_FAMILIES
  {
    assert KNOWN_FAMILIES[16] == "aruco_original" && KNOWN_FAMILIES[17] == "apriltag_16h5";
    assert KNOWN_FAMILIES[18] == "apriltag_25h9" && KNOWN_FAMILIES[19] == "apriltag_36h10";
    assert KNOWN_FAMILIES[20] == "apriltag_36h11";
  }

  lemma FamiliesOf(d: string, i: int)
    requires (d, i) in {("4x4", 0), ("5x5", 4), ("6x6", 8), ("7x7", 12)}
    ensures KNOWN_FAMILIES[i] == "aruco_" + d + "_" + "50" && KNOWN_FAMILIES[i + 1] == "aruco_" + d + "_" + "100"
    ensures KNOWN_FAMILIES[i + 2] == "aruco_" + d + "_" + "250" && KNOWN_FAMILIES[i + 3] == "aruco_" + d + "_" + "1000"
  {
  }

  lemma FamiliesOther()
    ensures KNOWN_FAMILIES[16..] ==
              ["aruco_original", "apriltag_16h5", "apriltag_25h9", "apriltag_36h10", "apriltag_36h11"]
    ensures |KNOWN_FAMILIES| == 21
  {
  }

  lemma FamilyAt(i: int)
    requires 0 <= i < 21
    ensures IsFamily(KNOWN_FAMILIES[i])
  {
    if i < 4 {
      FamiliesOf("4x4", 0);
    } else if i < 8 {
      FamiliesOf("5x5", 4);
    } else if i < 12 {
      FamiliesOf("6x6", 8);
    } else if i < 16 {
      FamiliesOf("7x7", 12);
    } else {
      FamiliesOther();
      assert KNOWN_FAMILIES[i] == KNOWN_FAMILIES[16..][i - 16];
    }
  }

  // ----- validate -----

  datatype Check =
    | EmptyCameraId | EmptyPipeline | NoAppsink | NoDrop | UnsetIntrinsics | BadModel | FisheyeCoeffs
    | PinholeCoeffs | UnknownFamily | NoisyFamily | BadDefaultSize | BadWatchdog

  /** One reported problem; `i` is the stream, `j` the entry of tags.sizes. */
  datatype Problem =
    | NoStreams
    | Stream(i: nat, check: Check)
    | BadTagSize(i: nat, j: nat)
    | ZeroPort | ForeignPort | NoHeartbeat

  /** What each per-stream check complains about. */
  predicate Fails(s: StreamConfig, check: Check) {
    match check
    case EmptyCameraId => s.cameraId == ""
    case EmptyPipeline => s.gst == ""
    case NoAppsink => s.gst != "" && !Mentions(s.gst, "appsink")
    case NoDrop => s.gst != "" && Mentions(s.gst, "appsink") && !s.exitOnEos && !Mentions(s.gst, "drop=true")
    case UnsetIntrinsics => !s.camera.Valid()
    case BadModel => s.camera.model != "pinhole" && s.camera.model != "fisheye"
    case FisheyeCoeffs => s.camera.model == "fisheye" && |s.camera.distCoeffs| != 4
    case PinholeCoeffs => s.camera.model == "pinhole" && |s.camera.distCoeffs| !in {4, 5, 8}
    case UnknownFamily => s.detector.family !in KNOWN_FAMILIES
    case NoisyFamily => s.detector.family == "apriltag_16h5"
    case BadDefaultSize => s.tags.defaultSize <= 0.0
    case BadWatchdog => s.watchdogSec <= 0.0
  }

  predicate StreamFlaw(streams: seq<StreamConfig>, p: Problem) {
    match p
    case Stream(i, check) => i < |streams| && Fails(streams[i], check)
    case BadTagSize(i, j) => i < |streams| && j < |streams[i].tags.sizes| && streams[i].tags.sizes[j].size <= 0.0
    case _ => false
  }

  predicate Flaw(cfg: AppConfig, p: Problem) {
    match p
    case NoStreams => cfg.streams == []
    case ZeroPort => cfg.udp.enabled && cfg.udp.destPort == 0
    case ForeignPort => cfg.udp.enabled && cfg.udp.destPort == 5601
    case NoHeartbeat => cfg.udp.enabled && cfg.udp.heartbeatHz <= 0.0
    case _ => StreamFlaw(cfg.streams, p)
  }

  /** A configuration validate accepts. */
  ghost predicate Clean(cfg: AppConfig) {
    forall p: Problem :: !Flaw(cfg, p)
  }

  /** `found` are the failing checks among `checks` of stream i. */
  ghost predicate Reports(found: seq<Problem>, s: StreamConfig, i: nat, checks: set<Check>) {
    forall p :: p in found <==> p.Stream? && p.i == i && p.check in checks && Fails(s, p.check)
  }

  method CheckPipeline(s: StreamConfig, i: nat) returns (found: seq<Problem>)
    ensures Reports(found, s, i, {EmptyCameraId, EmptyPipeline, NoAppsink, NoDrop})
  {
    found := [];
    if s.cameraId == "" { found := found + [Stream(i, EmptyCameraId)]; }
    if s.gst == "" {
      found := found + [Stream(i, EmptyPipeline)];
    } else if !Mentions(s.gst, "appsink") {
      found := found + [Stream(i, NoAppsink)];
    } else if !s.exitOnEos && !Mentions(s.gst, "drop=true") {
      found := found + [Stream(i, NoDrop)];
    }
  }

  method CheckCamera(s: StreamConfig, i: nat) returns (found: seq<Problem>)
    ensures Reports(found, s, i, {UnsetIntrinsics, BadModel, FisheyeCoeffs, PinholeCoeffs})
  {
    found := [];
    if !s.camera.Valid() { found := found + [Stream(i, UnsetIntrinsics)]; }
    if s.camera.model != "pinhole" && s.camera.model != "fisheye" { found := found + [Stream(i, BadModel)]; }
    if s.camera.model == "fisheye" && |s.camera.distCoeffs| != 4 { found := found + [Stream(i, FisheyeCoeffs)]; }
    if s.camera.model == "pinhole" &&
       |s.camera.distCoeffs| != 4 && |s.camera.distCoeffs| != 5 && |s.camera.distCoeffs| != 8 {
      found := found + [Stream(i, PinholeCoeffs)];
    }
  }

  method CheckFamily(s: StreamConfig, i: nat) returns (found: seq<Problem>)
    ensures Reports(found, s, i, {UnknownFamily, NoisyFamily, BadDefaultSize})
  {
    found := [];
    if s.detector.family !in KNOWN_FAMILIES { found := found + [Stream(i, UnknownFamily)]; }
    if s.detector.family == "apriltag_16h5" { found := found + [Stream(i, NoisyFamily)]; }
    if s.tags.defaultSize <= 0.0 { found := found + [Stream(i, BadDefaultSize)]; }
  }

  method CheckStream(s: StreamConfig, i: nat) returns (found: seq<Problem>)
    ensures forall p :: p in found <==>
      (p.Stream? && p.i == i && Fails(s, p.check))
      || (p.BadTagSize? && p.i == i && p.j < |s.tags.sizes| && s.tags.sizes[p.j].size <= 0.0)
  {
    found := CheckPipeline(s, i);
    var camera := CheckCamera(s, i);
    var family := CheckFamily(s, i);
    var sizes := CheckSizes(s.tags.sizes, i);
    found := found + camera + family + sizes;
    if s.watchdogSec <= 0.0 { found := found + [Stream(i, BadWatchdog)]; }
  }

  method CheckSizes(sizes: seq<TagSize>, i: nat) returns (found: seq<Problem>)
    ensures forall p :: p in found <==> p.BadTagSize? && p.i == i && p.j < |sizes| && sizes[p.j].size <= 0.0
  {
    found := [];
    for j := 0 to |sizes|
      invariant forall p :: p in found <==> p.BadTagSize? && p.i == i && p.j < j && sizes[p.j].size <= 0.0
    {
      if sizes[j].size <= 0.0 {
        found := found + [BadTagSize(i, j)];
      }
    }
  }

  /** Appends exactly the flaws of the configuration; true when there are none. */
  method Validate(cfg: AppConfig, before: seq<Problem>) returns (errors: seq<Problem>, ok: bool)
    ensures before <= errors
    ensures forall p :: p in errors[|before|..] <==> Flaw(cfg, p)
    ensures ok <==> Clean(cfg)
  {
    var found: seq<Problem> := [];
    if cfg.streams == [] {
      found := found + [NoStreams];
    }
    for i := 0 to |cfg.streams|
      invariant forall p :: p in found <==> (p == NoStreams && cfg.streams == []) || StreamFlaw(cfg.streams[..i], p)
    {
      var more := CheckStream(cfg.streams[i], i);
      found := found + more;
    }
    assert cfg.streams[..|cfg.streams|] == cfg.streams;
    if cfg.udp.enabled && cfg.udp.destPort == 0 { found := found + [ZeroPort]; }
    if cfg.udp.enabled && cfg.udp.destPort == 5601 { found := found + [ForeignPort]; }
    if cfg.udp.enabled && cfg.udp.heartbeatHz <= 0.0 { found := found + [NoHeartbeat]; }
    errors := before + found;
    assert errors[|before|..] == found;
    ok := |errors| == |before|;
    assert ok ==> found == [];
    assert !ok ==> found[0] in found;
  }

  /** What validate asks of one stream. */
  ghost predicate Sound(s: StreamConfig) {
    && s.cameraId != ""
    && (exists before, after :: s.gst == before + "appsink" + after)
    && (s.exitOnEos || exists before, after :: s.gst == before + "drop=true" + after)
    && s.camera.fx > 0.0 && s.camera.fy > 0.0 && s.camera.cx > 0.0 && s.camera.cy > 0.0
    && ((s.camera.model == "fisheye" && |s.camera.distCoeffs| == 4)
        || (s.camera.model == "pinhole" && |s.camera.distCoeffs| in {4, 5, 8}))
    && s.detector.family in KNOWN_FAMILIES && s.detector.family != "apriltag_16h5"
    && s.tags.defaultSize > 0.0 && (forall j :: 0 <= j < |s.tags.sizes| ==> s.tags.sizes[j].size > 0.0)
    && s.watchdogSec > 0.0
  }

  lemma SoundExactly(s: StreamConfig)
    ensures Sound(s) <==>
      (forall check :: !Fails(s, check)) && forall j :: 0 <= j < |s.tags.sizes| ==> s.tags.sizes[j].size > 0.0
  {
    MentionsExactly(s.gst, "appsink");
    MentionsExactly(s.gst, "drop=true");
    hide Mentions, KNOWN_FAMILIES;
    assert s.gst == "" ==> forall before, after :: before + "appsink" + after != s.gst by {
      forall before: string, after: string ensures |before + "appsink" + after| > 0 {
      }
    }
    if forall check :: !Fails(s, check) {
      FailsNothing(s);
    }
  }

  lemma FailsNothing(s: StreamConfig)
    requires forall check :: !Fails(s, check)
    ensures s.cameraId != "" && Mentions(s.gst, "appsink") && (s.exitOnEos || Mentions(s.gst, "drop=true"))
    ensures s.camera.fx > 0.0 && s.camera.fy > 0.0 && s.camera.cx > 0.0 && s.camera.cy > 0.0
    ensures || (s.camera.model == "fisheye" && |s.camera.distCoeffs| == 4)
            || (s.camera.model == "pinhole" && |s.camera.distCoeffs| in {4, 5, 8})
    ensures s.detector.family in KNOWN_FAMILIES && s.detector.family != "apriltag_16h5"
    ensures s.tags.defaultSize > 0.0 && s.watchdogSec > 0.0
  {
    hide Mentions;
    assert !Fails(s, EmptyCameraId) && !Fails(s, EmptyPipeline) && !Fails(s, NoAppsink) && !Fails(s, NoDrop);
    assert !Fails(s, UnsetIntrinsics) && !Fails(s, BadModel) && !Fails(s, FisheyeCoeffs) && !Fails(s, PinholeCoeffs);
    assert !Fails(s, UnknownFamily) && !Fails(s, NoisyFamily) && !Fails(s, BadDefaultSize) && !Fails(s, BadWatchdog);
  }

  /** A configuration is accepted exactly when it has streams, every one of them is sound,
      and a UDP section that is on has a port of its own and a heartbeat. */
  lemma CleanExactly(cfg: AppConfig)
    ensures Clean(cfg) <==>
      && cfg.streams != []
      && (forall i :: 0 <= i < |cfg.streams| ==> Sound(cfg.streams[i]))
      && (cfg.udp.enabled ==> cfg.udp.destPort !in {0, 5601} && cfg.udp.heartbeatHz > 0.0)
  {
    hide Fails, Sound;
    if Clean(cfg) {
      assert !Flaw(cfg, NoStreams) && !Flaw(cfg, ZeroPort) && !Flaw(cfg, ForeignPort) && !Flaw(cfg, NoHeartbeat);
      forall i | 0 <= i < |cfg.streams| ensures Sound(cfg.streams[i]) {
        forall check ensures !Fails(cfg.streams[i], check) {
          assert !Flaw(cfg, Stream(i, check));
        }
        forall j | 0 <= j < |cfg.streams[i].tags.sizes| ensures cfg.streams[i].tags.sizes[j].size > 0.0 {
          assert !Flaw(cfg, BadTagSize(i, j));
        }
        SoundExactly(cfg.streams[i]);
      }
    }
    forall i | 0 <= i < |cfg.streams| && Sound(cfg.streams[i])
      ensures (forall check :: !Fails(cfg.streams[i], check))
      ensures forall j :: 0 <= j < |cfg.streams[i].tags.sizes| ==> cfg.streams[i].tags.sizes[j].size > 0.0
    {
      SoundExactly(cfg.streams[i]);
    }
  }

  /** What a run may rely on once validate has accepted. */
  lemma CleanGuarantees(cfg: AppConfig, i: nat, id: int)
    requires Clean(cfg) && i < |cfg.streams|
    ensures cfg.streams[i].cameraId != "" && cfg.streams[i].camera.Valid()
    ensures cfg.streams[i].tags.SizeFor(id) > 0.0
    ensures cfg.streams[i].watchdogSec > 0.0
    ensures cfg.udp.enabled ==> cfg.udp.heartbeatHz > 0.0
  {
    var s := cfg.streams[i];
    assert !Flaw(cfg, Stream(i, EmptyCameraId)) && !Flaw(cfg, Stream(i, UnsetIntrinsics));
    assert !Flaw(cfg, Stream(i, BadDefaultSize)) && !Flaw(cfg, Stream(i, BadWatchdog)) && !Flaw(cfg, NoHeartbeat);
    forall j | 0 <= j < |s.tags.sizes| ensures s.tags.sizes[j].size > 0.0 {
      assert !Flaw(cfg, BadTagSize(i, j));
    }
    FirstSizeMeaning(s.tags.sizes, id, s.tags.defaultSize);
  }
}
