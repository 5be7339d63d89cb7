// The receiving end (tools/recv_fiducial.py): demultiplexing by camera, the gap
// counter and the wire checks. Decoding is an input: a datagram is either a
// message with its size, or undecodable.
module Receivers {
  import opened Wrappers
  import opened UdpPublishers

  const MAX_PAYLOAD := 1472

  datatype Note =
    | Undecodable(text: string)
    | EmptyCamera
    | EmptyDomain
    | Precedes
    | TooBig(bytes: nat)
    | HeartbeatCarries
    | WrongT(count: nat)
    | WrongR(count: nat)
    | BadRange(tagId: int, range: real)
    | BadSize(tagId: int, size: real)
    | OtherCamera
    | ManyDomains(count: nat)

  datatype CameraState = CameraState(
    frames: nat, heartbeats: nat, detections: nat, lastFrameId: Option<int>, gaps: nat, maxBytes: nat)

  const NEW_CAMERA := CameraState(0, 0, 0, None, 0, 0)

  /** What happens to the receiver, in order. */
  datatype Event = Got(m: Message, bytes: nat) | Garbled(text: string) | Summary

  function Key(m: Message): string {
    if m.cameraId == "" then "<empty>" else m.cameraId
  }

  function Max(a: nat, b: nat): nat { if a >= b then a else b }

  /** One datagram of a camera. */
  function Received(st: CameraState, m: Message, bytes: nat): CameraState {
    CameraState(
      st.frames + 1,
      st.heartbeats + if m.heartbeat then 1 else 0,
      st.detections + if m.heartbeat then 0 else |m.detections|,
      Some(m.frameId),
      st.gaps + if st.lastFrameId.Some? && m.frameId != st.lastFrameId.value + 1 then 1 else 0,
      Max(st.maxBytes, bytes))
  }

  /** What one event does to the state of one camera. */
  function Stepped(st: CameraState, e: Event, camera: string): CameraState {
    match e
    case Got(m, bytes) => if Key(m) == camera then Received(st, m, bytes) else st
    case Garbled(_) => st
    case Summary => st.(frames := 0, heartbeats := 0, detections := 0)
  }

  /** What one camera's state would be if the receiver had only ever kept that one. */
  function Solo(es: seq<Event>, camera: string): CameraState {
    if es == [] then NEW_CAMERA else Stepped(Solo(es[..|es| - 1], camera), es[|es| - 1], camera)
  }

  function Heard(es: seq<Event>): set<string> {
    if es == [] then {}
    else Heard(es[..|es| - 1]) + if es[|es| - 1].Got? then {Key(es[|es| - 1].m)} else {}
  }

  function DomainsOf(es: seq<Event>): set<string> {
    if es == [] then {}
    else
      DomainsOf(es[..|es| - 1])
      + if es[|es| - 1].Got? && es[|es| - 1].m.clockDomain != "" then {es[|es| - 1].m.clockDomain} else {}
  }

  function DatagramCount(es: seq<Event>): nat {
    if es == [] then 0 else DatagramCount(es[..|es| - 1]) + if es[|es| - 1].Summary? then 0 else 1
  }

  // ----- wire checks -----

  /** What one detection entry of a frame gets noted for. An entry whose translation
      has the wrong length is looked at no further. */
  predicate EntryRaises(d: WireDetection, cameraId: string, n: Note) {
    match n
    case WrongT(k) => k == |d.t| && k != 3
    case WrongR(k) => |d.t| == 3 && k == |d.r| && k !in {0, 9}
    case BadRange(id, range) => |d.t| == 3 && id == d.tagId && range == d.t[2] && range <= 0.0
    case BadSize(id, size) => |d.t| == 3 && id == d.tagId && size == d.size && size <= 0.0
    case OtherCamera => |d.t| == 3 && d.cameraId != cameraId
    case _ => false
  }

  /** What the header of a datagram, or a heartbeat that is not empty, gets noted for. */
  predicate FrameRaises(m: Message, bytes: nat, n: Note) {
    match n
    case EmptyCamera => m.cameraId == ""
    case EmptyDomain => m.clockDomain == ""
    case Precedes => m.publishUs != 0 && m.captureUs != 0 && m.publishUs < m.captureUs
    case TooBig(k) => k == bytes && bytes > MAX_PAYLOAD
    case HeartbeatCarries => m.heartbeat && m.detections != []
    case _ => false
  }

  /** What one decoded datagram gets noted for. */
  ghost predicate Raises(m: Message, bytes: nat, n: Note) {
    FrameRaises(m, bytes, n) || (!m.heartbeat && EntriesRaise(m.detections, m.cameraId, n))
  }

  ghost predicate EntriesRaise(ds: seq<WireDetection>, cameraId: string, n: Note) {
    exists i :: 0 <= i < |ds| && EntryRaises(ds[i], cameraId, n)
  }

  /** What event `e` gets noted for after the history `es`. */
  ghost predicate EventRaises(es: seq<Event>, e: Event, n: Note) {
    match e
    case Got(m, bytes) => Raises(m, bytes, n)
    case Garbled(text) => n == Undecodable(text)
    case Summary => |DomainsOf(es)| > 1 && n == ManyDomains(|DomainsOf(es)|)
  }

  ghost predicate Raised(es: seq<Event>, n: Note) {
    es != [] && (EventRaises(es[..|es| - 1], es[|es| - 1], n) || Raised(es[..|es| - 1], n))
  }

  /** Something was wrong with some event. */
  ghost predicate Complained(es: seq<Event>) {
    exists n :: Raised(es, n)
  }

  lemma ComplainedExactly(es: seq<Event>, problems: seq<Note>)
    requires forall n :: n in problems <==> Raised(es, n)
    ensures Complained(es) <==> problems != []
  {
    if problems != [] {
      assert problems[0] in problems;
    } else {
      forall n: Note ensures !Raised(es, n) {
        assert n !in problems;
      }
    }
  }

  /** A detection entry that is as it should be. */
  predicate EntryInOrder(d: WireDetection, cameraId: string) {
    && |d.t| == 3 && (|d.r| == 0 || |d.r| == 9)
    && d.t[2] > 0.0 && d.size > 0.0 && d.cameraId == cameraId
  }

  /** A datagram gets noted for nothing exactly when it names its camera and its clock, was
      not published before it was captured, is at most 1472 bytes long, and carries no
      detections as a heartbeat and only entries in order otherwise. */
  lemma UnnotedExactly(m: Message, bytes: nat)
    ensures (forall n :: !Raises(m, bytes, n)) <==>
      && m.cameraId != "" && m.clockDomain != ""
      && (m.publishUs == 0 || m.captureUs == 0 || m.captureUs <= m.publishUs)
      && bytes <= 1472
      && if m.heartbeat then m.detections == []
         else forall i :: 0 <= i < |m.detections| ==> EntryInOrder(m.detections[i], m.cameraId)
  {
    if forall n :: !Raises(m, bytes, n) {
      assert !Raises(m, bytes, EmptyCamera) && !Raises(m, bytes, EmptyDomain) && !Raises(m, bytes, Precedes);
      assert !Raises(m, bytes, TooBig(bytes)) && !Raises(m, bytes, HeartbeatCarries);
      if !m.heartbeat {
        forall i | 0 <= i < |m.detections| ensures EntryInOrder(m.detections[i], m.cameraId) {
          EntryUnnoted(m.detections, m.cameraId, m, bytes, i);
        }
      }
    }
  }

  lemma EntryUnnoted(ds: seq<WireDetection>, cameraId: string, m: Message, bytes: nat, i: nat)
    requires i < |ds| && ds == m.detections && cameraId == m.cameraId && !m.heartbeat
    requires forall n :: !Raises(m, bytes, n)
    ensures EntryInOrder(ds[i], cameraId)
  {
    var d := ds[i];
    assert !Raises(m, bytes, WrongT(|d.t|)) && !Raises(m, bytes, WrongR(|d.r|)) && !Raises(m, bytes, OtherCamera);
    assert !EntryRaises(d, cameraId, WrongT(|d.t|));
    assert !Raises(m, bytes, BadRange(d.tagId, d.t[2])) && !Raises(m, bytes, BadSize(d.tagId, d.size));
  }

  predicate Ranges(d: WireDetection, tagId: int, range: real) {
    d.tagId == tagId && |d.t| == 3 && d.t[2] == range
  }

  predicate Sizes(d: WireDetection, tagId: int, size: real) {
    d.tagId == tagId && d.size == size
  }

  /** What a note says of the datagram: the figures in it are the datagram's own. */
  lemma NoteMeans(m: Message, bytes: nat, n: Note)
    requires Raises(m, bytes, n)
    ensures n.TooBig? ==> n.bytes == bytes > 1472
    ensures n.WrongT? ==> n.count != 3 && exists i :: 0 <= i < |m.detections| && |m.detections[i].t| == n.count
    ensures n.WrongR? ==> n.count !in {0, 9} && exists i :: 0 <= i < |m.detections| && |m.detections[i].r| == n.count
    ensures n.BadRange? ==>
      n.range <= 0.0 && exists i :: 0 <= i < |m.detections| && Ranges(m.detections[i], n.tagId, n.range)
    ensures n.BadSize? ==>
      n.size <= 0.0 && exists i :: 0 <= i < |m.detections| && Sizes(m.detections[i], n.tagId, n.size)
    ensures n.OtherCamera? ==> exists i :: 0 <= i < |m.detections| && m.detections[i].cameraId != m.cameraId
  {
  }

  lemma RaisedSnoc(es: seq<Event>, e: Event, n: Note)
    ensures Raised(es + [e], n) <==> EventRaises(es, e, n) || Raised(es, n)
  {
    assert (es + [e])[..|es|] == es;
  }

  lemma SoloSnoc(es: seq<Event>, e: Event, camera: string)
    ensures Solo(es + [e], camera) == Stepped(Solo(es, camera), e, camera)
  {
    assert (es + [e])[..|es|] == es;
  }

  lemma SetsSnoc(es: seq<Event>, e: Event)
    ensures Heard(es + [e]) == Heard(es) + if e.Got? then {Key(e.m)} else {}
    ensures DomainsOf(es + [e]) == DomainsOf(es) + if e.Got? && e.m.clockDomain != "" then {e.m.clockDomain} else {}
    ensures DatagramCount(es + [e]) == DatagramCount(es) + if e.Summary? then 0 else 1
  {
    assert (es + [e])[..|es|] == es;
  }

  /** A camera nothing was heard of has a new state. */
  lemma {:induction false} Unheard(es: seq<Event>, camera: string)
    requires camera !in Heard(es)
    ensures Solo(es, camera) == NEW_CAMERA
  {
    if es != [] {
      Unheard(es[..|es| - 1], camera);
    }
  }

  /** Two datagrams share an entry of the table exactly when their cameras have the same
      id, or one has none and the other is named like the entry for that. */
  lemma SharedEntryExactly(a: Message, b: Message)
    ensures Key(a) == Key(b) <==>
      || a.cameraId == b.cameraId
      || (a.cameraId == "" && b.cameraId == "<empty>") || (a.cameraId == "<empty>" && b.cameraId == "")
  {
  }

  /** The datagrams of a camera since the last summary, and since the beginning. */
  function Recent(es: seq<Event>, camera: string): seq<Message> {
    if es == [] then []
    else
      var before, e := Recent(es[..|es| - 1], camera), es[|es| - 1];
      if e.Summary? then [] else if e.Got? && Key(e.m) == camera then before + [e.m] else before
  }

  function HeartbeatsIn(ms: seq<Message>): nat {
    if ms == [] then 0 else HeartbeatsIn(ms[1..]) + if ms[0].heartbeat then 1 else 0
  }

  function EntriesIn(ms: seq<Message>): nat {
    if ms == [] then 0 else EntriesIn(ms[1..]) + if ms[0].heartbeat then 0 else |ms[0].detections|
  }

  lemma {:induction false} CountsSnoc(ms: seq<Message>, m: Message)
    ensures HeartbeatsIn(ms + [m]) == HeartbeatsIn(ms) + if m.heartbeat then 1 else 0
    ensures EntriesIn(ms + [m]) == EntriesIn(ms) + if m.heartbeat then 0 else |m.detections|
  {
    if ms != [] {
      CountsSnoc(ms[1..], m);
      assert (ms + [m])[1..] == ms[1..] + [m];
    } else {
      assert ms + [m] == [m] && [m][1..] == [];
    }
  }

  ghost predicate IsOf(e: Event, camera: string) {
    e.Got? && Key(e.m) == camera
  }

  /** What a camera's figures are: datagrams, heartbeats and detections since the last
      summary, the largest datagram ever, and the id of the last one. */
  lemma {:induction false} FiguresMean(es: seq<Event>, camera: string)
    ensures var st, ms := Solo(es, camera), Recent(es, camera);
      && st.frames == |ms| && st.heartbeats == HeartbeatsIn(ms) && st.detections == EntriesIn(ms)
      && (forall i :: 0 <= i < |es| && IsOf(es[i], camera) ==> es[i].bytes <= st.maxBytes)
      && (st.maxBytes == 0 || exists i :: 0 <= i < |es| && IsOf(es[i], camera) && es[i].bytes == st.maxBytes)
      && (ms != [] ==> st.lastFrameId == Some(ms[|ms| - 1].frameId))
  {
    if es != [] {
      var front, n := es[..|es| - 1], |es| - 1;
      FiguresMean(front, camera);
      assert forall i :: 0 <= i < n ==> front[i] == es[i];
      if IsOf(es[n], camera) {
        CountsSnoc(Recent(front, camera), es[n].m);
      }
    }
  }

  ghost predicate Names(e: Event, domain: string) {
    e.Got? && e.m.clockDomain == domain
  }

  /** Who was heard of, which clocks were named, and whether anything came at all. */
  lemma {:induction false} HeardExactly(es: seq<Event>, camera: string, domain: string)
    ensures camera in Heard(es) <==> exists i :: 0 <= i < |es| && IsOf(es[i], camera)
    ensures domain in DomainsOf(es) <==> domain != "" && exists i :: 0 <= i < |es| && Names(es[i], domain)
    ensures DatagramCount(es) == 0 <==> forall i :: 0 <= i < |es| ==> es[i].Summary?
  {
    if es != [] {
      var front, n := es[..|es| - 1], |es| - 1;
      HeardExactly(front, camera, domain);
      assert forall i :: 0 <= i < n ==> front[i] == es[i];
    }
  }

  ghost predicate RaisedBy(es: seq<Event>, i: nat, n: Note) {
    i < |es| && EventRaises(es[..i], es[i], n)
  }

  /** A note was raised exactly when some event gave cause for it when it came. */
  lemma {:induction false} RaisedExactly(es: seq<Event>, n: Note)
    ensures Raised(es, n) <==> exists i: nat :: RaisedBy(es, i, n)
  {
    hide EventRaises;
    if es != [] {
      var front, last := es[..|es| - 1], |es| - 1;
      RaisedExactly(front, n);
      assert forall i: nat :: i < last ==> front[..i] == es[..i] && front[i] == es[i];
      assert forall i: nat :: i < last ==> (RaisedBy(es, i, n) <==> RaisedBy(front, i, n));
      assert RaisedBy(es, last, n) <==> EventRaises(front, es[last], n);
    }
  }

  ghost predicate NoRepeats(problems: seq<Note>) {
    forall i, j :: 0 <= i < j < |problems| ==> problems[i] != problems[j]
  }

  lemma Appended(problems: seq<Note>, n: Note)
    requires NoRepeats(problems) && n !in problems
    ensures NoRepeats(problems + [n])
    ensures forall x :: x in problems + [n] <==> x in problems || x == n
  {
  }

  lemma OneMoreEntry(ds: seq<WireDetection>, i: nat, cameraId: string, n: Note)
    requires i < |ds|
    ensures EntriesRaise(ds[..i + 1], cameraId, n) <==>
            EntriesRaise(ds[..i], cameraId, n) || EntryRaises(ds[i], cameraId, n)
  {
    if EntriesRaise(ds[..i], cameraId, n) {
      var j :| 0 <= j < i && EntryRaises(ds[..i][j], cameraId, n);
      assert ds[..i + 1][j] == ds[..i][j];
    }
    if EntryRaises(ds[i], cameraId, n) {
      assert ds[..i + 1][i] == ds[i];
    }
  }

  class Receiver {
    var cams: map<string, CameraState>
    var problems: seq<Note>
    var clockDomains: set<string>
    var total: nat

    ghost var events: seq<Event>

    /** Each camera heard of has the state of a receiver of its own; the problems
        are exactly what the events so far were noted for, each once. */
    ghost predicate Valid()
      reads this
    {
      && cams.Keys == Heard(events)
      && (forall c :: c in cams ==> cams[c] == Solo(events, c))
      && (forall n :: n in problems <==> Raised(events, n))
      && NoRepeats(problems)
      && clockDomains == DomainsOf(events)
      && total == DatagramCount(events)
    }

    constructor ()
      ensures Valid() && events == []
    {
      cams, problems, clockDomains, total, events := map[], [], {}, 0, [];
    }

    method NoteProblem(n: Note)
      requires NoRepeats(problems)
      modifies this`problems
      ensures NoRepeats(problems) && problems == old(problems) + if n in old(problems) then [] else [n]
      ensures forall x :: x in problems <==> x in old(problems) || x == n
    {
      if n !in problems {
        Appended(problems, n);
        problems := problems + [n];
      }
    }

    method NoteIf(bad: bool, n: Note)
      requires NoRepeats(problems)
      modifies this`problems
      ensures NoRepeats(problems)
      ensures forall x :: x in problems <==> x in old(problems) || (bad && x == n)
    {
      if bad {
        NoteProblem(n);
      }
    }

    method CheckFrame(m: Message, bytes: nat)
      requires NoRepeats(problems)
      modifies this`problems
      ensures NoRepeats(problems)
      ensures forall n :: n in problems <==> n in old(problems) || FrameRaises(m, bytes, n)
    {
      hide NoRepeats;
      NoteIf(m.cameraId == "", EmptyCamera);
      NoteIf(m.clockDomain == "", EmptyDomain);
      NoteIf(m.publishUs != 0 && m.captureUs != 0 && m.publishUs - m.captureUs < 0, Precedes);
      NoteIf(bytes > MAX_PAYLOAD, TooBig(bytes));
      NoteIf(m.heartbeat && m.detections != [], HeartbeatCarries);
    }

    method CheckEntry(d: WireDetection, cameraId: string)
      requires NoRepeats(problems)
      modifies this`problems
      ensures NoRepeats(problems)
      ensures forall n :: n in problems <==> n in old(problems) || EntryRaises(d, cameraId, n)
    {
      hide NoRepeats;
      if |d.t| != 3 {
        NoteProblem(WrongT(|d.t|));
        return;
      }
      NoteIf(|d.r| != 0 && |d.r| != 9, WrongR(|d.r|));
      NoteIf(d.t[2] <= 0.0, BadRange(d.tagId, d.t[2]));
      NoteIf(d.size <= 0.0, BadSize(d.tagId, d.size));
      NoteIf(d.cameraId != cameraId, OtherCamera);
    }

    method CheckEntries(ds: seq<WireDetection>, cameraId: string)
      requires NoRepeats(problems)
      modifies this`problems
      ensures NoRepeats(problems)
      ensures forall n :: n in problems <==> n in old(problems) || EntriesRaise(ds, cameraId, n)
    {
      hide EntryRaises, EntriesRaise, NoRepeats;
      assert forall n :: !EntriesRaise(ds[..0], cameraId, n) by { NoEntries(cameraId, ds[..0]); }
      for i := 0 to |ds|
        invariant NoRepeats(problems)
        invariant forall n :: n in problems <==> n in old(problems) || EntriesRaise(ds[..i], cameraId, n)
      {
        CheckEntry(ds[i], cameraId);
        forall n: Note
          ensures EntriesRaise(ds[..i + 1], cameraId, n) <==>
                    EntriesRaise(ds[..i], cameraId, n) || EntryRaises(ds[i], cameraId, n)
        {
          OneMoreEntry(ds, i, cameraId, n);
        }
      }
      assert ds[..|ds|] == ds;
    }

    /** The counters of one camera for one datagram. */
    method Count(before: CameraState, m: Message, bytes: nat) returns (st: CameraState)
      ensures st == Received(before, m, bytes)
    {
      st := before.(frames := before.frames + 1);
      if bytes > st.maxBytes {
        st := st.(maxBytes := bytes);
      }
      if st.lastFrameId.Some? && m.frameId != st.lastFrameId.value + 1 {
        st := st.(gaps := st.gaps + 1);
      }
      st := st.(lastFrameId := Some(m.frameId));
      if m.heartbeat {
        st := st.(heartbeats := st.heartbeats + 1);
      } else {
        st := st.(detections := st.detections + |m.detections|);
      }
    }

    /** One datagram that decodes. */
    method Deliver(m: Message, bytes: nat)
      requires Valid()
      modifies this
      ensures Valid() && events == old(events) + [Got(m, bytes)]
    {
      hide Raised, Raises, Solo, NoRepeats, Received, Heard, DomainsOf, DatagramCount;
      total := total + 1;
      var cam := Key(m);
      Unheards(events, cam);
      var st := Count(if cam in cams then cams[cam] else NEW_CAMERA, m, bytes);
      cams := cams[cam := st];
      if m.clockDomain != "" {
        clockDomains := clockDomains + {m.clockDomain};
      }
      Check(m, bytes);
      ghost var e := Got(m, bytes);
      forall c: string ensures Solo(events + [e], c) == Stepped(Solo(events, c), e, c) {
        SoloSnoc(events, e, c);
      }
      forall n: Note ensures Raised(events + [e], n) <==> EventRaises(events, e, n) || Raised(events, n) {
        RaisedSnoc(events, e, n);
      }
      SetsSnoc(events, e);
      events := events + [e];
    }

    method Check(m: Message, bytes: nat)
      requires NoRepeats(problems)
      modifies this`problems
      ensures NoRepeats(problems)
      ensures forall n :: n in problems <==> n in old(problems) || Raises(m, bytes, n)
    {
      hide FrameRaises, EntriesRaise, NoRepeats;
      CheckFrame(m, bytes);
      if !m.heartbeat {
        CheckEntries(m.detections, m.cameraId);
      }
    }

    /** One datagram that does not. */
    method DeliverGarbled(text: string)
      requires Valid()
      modifies this
      ensures Valid() && events == old(events) + [Garbled(text)]
    {
      hide Raised, Raises, Solo, NoRepeats, Received, Heard, DomainsOf, DatagramCount;
      total := total + 1;
      NoteProblem(Undecodable(text));
      ghost var e := Garbled(text);
      forall c: string ensures Solo(events + [e], c) == Stepped(Solo(events, c), e, c) {
        SoloSnoc(events, e, c);
      }
      forall n: Note ensures Raised(events + [e], n) <==> EventRaises(events, e, n) || Raised(events, n) {
        RaisedSnoc(events, e, n);
      }
      SetsSnoc(events, e);
      events := events + [e];
    }

    /** The periodic table: the per-interval counters start again, the gaps do not. */
    method Summarise()
      requires Valid()
      modifies this
      ensures Valid() && events == old(events) + [Summary]
    {
      hide Raised, Raises, Solo, NoRepeats, Received, Heard, DomainsOf, DatagramCount;
      cams := map c | c in cams :: cams[c].(frames := 0, heartbeats := 0, detections := 0);
      NoteIf(|clockDomains| > 1, ManyDomains(|clockDomains|));
      ghost var e := Summary;
      forall c: string ensures Solo(events + [e], c) == Stepped(Solo(events, c), e, c) {
        SoloSnoc(events, e, c);
      }
      forall n: Note ensures Raised(events + [e], n) <==> EventRaises(events, e, n) || Raised(events, n) {
        RaisedSnoc(events, e, n);
      }
      SetsSnoc(events, e);
      events := events + [e];
    }

    /** The exit status: 1 exactly when checking and something was noted, or nothing
        arrived at all. */
    method Finish(check: bool) returns (status: int)
      requires Valid()
      ensures status == if check && (Complained(events) || DatagramCount(events) == 0) then 1 else 0
    {
      ComplainedExactly(events, problems);
      if problems != [] {
        if check {
          return 1;
        }
      }
      if check && total == 0 {
        return 1;
      }
      status := 0;
    }
  }

  lemma Unheards(es: seq<Event>, camera: string)
    ensures camera !in Heard(es) ==> Solo(es, camera) == NEW_CAMERA
  {
    if camera !in Heard(es) {
      Unheard(es, camera);
    }
  }

  lemma NoEntries(cameraId: string, ds: seq<WireDetection>)
    requires ds == []
    ensures forall n :: !EntriesRaise(ds, cameraId, n)
  {
  }
}
