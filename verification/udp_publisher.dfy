// The published message and its sender (src/udp_publisher.cpp). Serialisation
// and the socket are inputs: the size of the datagram and whether sendto took it.
module UdpPublishers {
  import opened Detectors

  datatype WireDetection = WireDetection(
    tagId: int, family: string, size: real, t: seq<real>, r: seq<real>, reproj: real, cameraId: string,
    locType: int, cornersPx: seq<real>)

  datatype Message = Message(
    captureUs: nat, publishUs: nat, clockDomain: string, frameId: int, width: int, height: int, cameraId: string,
    captureRealtimeUs: nat, heartbeat: bool, detectMs: real, detections: seq<WireDetection>)

  const MTU_WARN_BYTES := 1400

  /** Row-major entry k of a 3x3 matrix. */
  function Entry(m: Matrix33, k: int): real
    requires 0 <= k < 9
  {
    m[k / 3][k % 3]
  }

  function FlatCorners(corners: seq<Point>): seq<real> {
    if corners == [] then []
    else FlatCorners(corners[..|corners| - 1]) + [corners[|corners| - 1].x, corners[|corners| - 1].y]
  }

  /** The message entry for one detection of camera `cameraId`. */
  ghost predicate IsWireOf(pd: WireDetection, d: Detection, cameraId: string) {
    && pd.tagId == d.tagId && pd.family == d.family && pd.size == d.size && pd.reproj == d.reproj
    && pd.t == d.t && |pd.t| == 3
    && |pd.r| == 9 && (forall k :: 0 <= k < 9 ==> pd.r[k] == Entry(d.rotation, k))
    && pd.cameraId == cameraId && pd.locType == 0
    && pd.cornersPx == FlatCorners(d.corners)
  }

  lemma {:induction false} FlatCornersMean(corners: seq<Point>)
    ensures |FlatCorners(corners)| == 2 * |corners|
    ensures forall i :: 0 <= i < |corners| ==>
      FlatCorners(corners)[2 * i] == corners[i].x && FlatCorners(corners)[2 * i + 1] == corners[i].y
  {
    if corners != [] {
      var front := corners[..|corners| - 1];
      FlatCornersMean(front);
      assert forall i :: 0 <= i < |front| ==> front[i] == corners[i];
    }
  }

  /** Where everything of a detection stands on the wire: the rotation row after row, the
      corners point after point, x before y. */
  lemma WireMeans(pd: WireDetection, d: Detection, cameraId: string)
    requires IsWireOf(pd, d, cameraId)
    ensures |pd.r| == 9
    ensures forall row, col :: 0 <= row < 3 && 0 <= col < 3 ==> pd.r[3 * row + col] == d.rotation[row][col]
    ensures |pd.cornersPx| == 2 * |d.corners|
    ensures forall i :: 0 <= i < |d.corners| ==>
      pd.cornersPx[2 * i] == d.corners[i].x && pd.cornersPx[2 * i + 1] == d.corners[i].y
    ensures pd.t == [d.t[0], d.t[1], d.t[2]] && pd.tagId == d.tagId && pd.size == d.size && pd.cameraId == cameraId
  {
    FlatCornersMean(d.corners);
    forall row, col | 0 <= row < 3 && 0 <= col < 3 ensures pd.r[3 * row + col] == d.rotation[row][col] {
      assert pd.r[3 * row + col] == Entry(d.rotation, 3 * row + col);
    }
  }

  /** The realtime stamp is the capture stamp moved by the offset, and never negative. */
  lemma RealtimeMeans(captureUs: nat, offset: int)
    ensures captureUs + offset >= 0 ==> CaptureRealtime(captureUs, offset) == captureUs + offset
    ensures captureUs + offset < 0 ==> CaptureRealtime(captureUs, offset) == 0
  {
  }

  function CaptureRealtime(captureUs: nat, offset: int): nat {
    if captureUs + offset > 0 then captureUs + offset else 0
  }

  /** Header fields common to both kinds of message. */
  ghost predicate HasHeader(m: Message, camera: string, domain: string, offset: int, captureUs: nat, publishUs: nat,
                            frameId: int, w: int, h: int) {
    && m.captureUs == captureUs && m.publishUs == publishUs && m.clockDomain == domain && m.frameId == frameId
    && m.width == w && m.height == h && m.cameraId == camera
    && m.captureRealtimeUs == CaptureRealtime(captureUs, offset)
  }

  /** What became of one datagram: its size, and whether sendto took it. */
  datatype Transfer = Transfer(bytes: nat, taken: bool)

  function Failures(transfers: seq<Transfer>): nat {
    if transfers == [] then 0
    else Failures(transfers[..|transfers| - 1]) + if transfers[|transfers| - 1].taken then 0 else 1
  }

  class UdpPublisher {
    const cameraId: string
    const clockDomain: string
    const realtimeOffset: int

    var sendErrors: nat
    var maxBytes: nat
    var warnedMtu: bool

    /** Every datagram handed to the socket, and what became of it. */
    ghost var sent: seq<Message>
    ghost var transfers: seq<Transfer>

    /** The counters summarise the transfers. */
    ghost predicate Valid()
      reads this
    {
      && |sent| == |transfers|
      && sendErrors == Failures(transfers)
      && (forall i :: 0 <= i < |transfers| ==> transfers[i].bytes <= maxBytes)
      && (transfers == [] ==> maxBytes == 0)
      && (transfers != [] ==> maxBytes == 0 || exists i :: 0 <= i < |transfers| && transfers[i].bytes == maxBytes)
      && (warnedMtu <==> maxBytes > MTU_WARN_BYTES)
      && (warnedMtu <==> exists i :: 0 <= i < |transfers| && transfers[i].bytes > 1400)
    }

    constructor (cameraId: string, clockDomain: string, realtimeOffset: int)
      ensures Valid() && sent == [] && transfers == []
      ensures this.cameraId == cameraId && this.clockDomain == clockDomain && this.realtimeOffset == realtimeOffset
    {
      this.cameraId, this.clockDomain, this.realtimeOffset := cameraId, clockDomain, realtimeOffset;
      sendErrors, maxBytes, warnedMtu, sent, transfers := 0, 0, false, [], [];
    }

    method DoSend(msg: Message, bytes: nat, taken: bool)
      requires Valid()
      modifies this
      ensures Valid() && sent == old(sent) + [msg] && transfers == old(transfers) + [Transfer(bytes, taken)]
    {
      if bytes > maxBytes {
        maxBytes := bytes;
      }
      if bytes > MTU_WARN_BYTES && !warnedMtu {
        warnedMtu := true;
      }
      if !taken {
        sendErrors := sendErrors + 1;
      }
      ghost var before := transfers;
      sent, transfers := sent + [msg], transfers + [Transfer(bytes, taken)];
      assert transfers[..|transfers| - 1] == before;
      assert transfers[|transfers| - 1].bytes == bytes;
      assert forall i :: 0 <= i < |before| ==> transfers[i] == before[i];
    }

    method Header(captureUs: nat, publishUs: nat, frameId: int, w: int, h: int) returns (m: Message)
      ensures HasHeader(m, cameraId, clockDomain, realtimeOffset, captureUs, publishUs, frameId, w, h)
      ensures !m.heartbeat && m.detections == [] && m.detectMs == 0.0
    {
      m := Message(captureUs, publishUs, clockDomain, frameId, w, h, cameraId,
                   CaptureRealtime(captureUs, realtimeOffset), false, 0.0, []);
    }

    method WireOf(d: Detection) returns (pd: WireDetection)
      requires |d.t| == 3
      ensures IsWireOf(pd, d, cameraId)
    {
      var t: seq<real> := [];
      for i := 0 to 3
        invariant t == d.t[..i]
      {
        t := t + [d.t[i]];
      }
      var r: seq<real> := [];
      for row := 0 to 3
        invariant |r| == 3 * row
        invariant forall k :: 0 <= k < 3 * row ==> r[k] == Entry(d.rotation, k)
      {
        for col := 0 to 3
          invariant |r| == 3 * row + col
          invariant forall k :: 0 <= k < 3 * row + col ==> r[k] == Entry(d.rotation, k)
        {
          assert Entry(d.rotation, 3 * row + col) == d.rotation[row][col];
          r := r + [d.rotation[row][col]];
        }
      }
      var px: seq<real> := [];
      for i := 0 to |d.corners|
        invariant px == FlatCorners(d.corners[..i])
      {
        assert d.corners[..i + 1][..i] == d.corners[..i];
        px := px + [d.corners[i].x, d.corners[i].y];
      }
      assert d.corners[..|d.corners|] == d.corners;
      pd := WireDetection(d.tagId, d.family, d.size, t, r, d.reproj, cameraId, 0, px);
    }

    method Send(captureUs: nat, publishUs: nat, frameId: int, w: int, h: int, detections: seq<Detection>,
                detectMs: real, bytes: nat, taken: bool) returns (m: Message)
      requires Valid() && forall i :: 0 <= i < |detections| ==> |detections[i].t| == 3
      modifies this
      ensures Valid() && sent == old(sent) + [m] && transfers == old(transfers) + [Transfer(bytes, taken)]
      ensures HasHeader(m, cameraId, clockDomain, realtimeOffset, captureUs, publishUs, frameId, w, h)
      ensures !m.heartbeat && m.detectMs == detectMs && |m.detections| == |detections|
      ensures forall i :: 0 <= i < |detections| ==> IsWireOf(m.detections[i], detections[i], cameraId)
    {
      m := Header(captureUs, publishUs, frameId, w, h);
      m := m.(detectMs := detectMs);
      for i := 0 to |detections|
        modifies {}
        invariant HasHeader(m, cameraId, clockDomain, realtimeOffset, captureUs, publishUs, frameId, w, h)
        invariant !m.heartbeat && m.detectMs == detectMs && |m.detections| == i
        invariant forall j :: 0 <= j < i ==> IsWireOf(m.detections[j], detections[j], cameraId)
      {
        var pd := WireOf(detections[i]);
        m := m.(detections := m.detections + [pd]);
      }
      DoSend(m, bytes, taken);
    }

    method SendHeartbeat(captureUs: nat, publishUs: nat, frameId: int, w: int, h: int, bytes: nat, taken: bool)
      returns (m: Message)
      requires Valid()
      modifies this
      ensures Valid() && sent == old(sent) + [m] && transfers == old(transfers) + [Transfer(bytes, taken)]
      ensures HasHeader(m, cameraId, clockDomain, realtimeOffset, captureUs, publishUs, frameId, w, h)
      ensures m.heartbeat && m.detectMs == 0.0 && m.detections == []
    {
      m := Header(captureUs, publishUs, frameId, w, h);
      m := m.(heartbeat := true);
      DoSend(m, bytes, taken);
    }
  }
}
