// GstCapture (src/gst_capture.cpp): who owns which GStreamer reference, and the
// rule for capture time stamps. GStreamer itself is an arbitrary input: every
// call says what the library answers.
module GstCaptures {
  import opened Wrappers

  datatype Kind = Pipeline | Element | Sample | Mapping | Bus | BusPost | Iterator | Clock | ErrorObject

  /** One reference (or buffer mapping) obtained from GStreamer. */
  datatype Handle = Handle(kind: Kind, id: nat)

  const FUTURE_SLACK_US := 10000

  datatype BusMessage = BusError(text: string) | BusEos

  datatype IteratorStep = AppSinkItem | OtherItem | Resync

  /** What findAppSink meets: the element named "sink", if any, and whether it is
      an appsink; then the elements of the bin. */
  datatype SinkSearch = SinkSearch(named: Option<bool>, items: seq<IteratorStep>)

  datatype OpenOutcome = OpenOutcome(
    parsed: bool, parseError: bool, search: SinkSearch, plays: bool, bus: Option<seq<BusMessage>>)

  datatype Format =
    | GRAY8 | NV12 | NV21 | I420 | YV12 | Y41B | Y42B | Y444
    | BGR | RGB | BGRA | BGRx | RGBA | RGBx | YUY2 | UYVY | OtherFormat

  /** Plane 0 is the grey image already. */
  predicate ZeroCopy(f: Format) {
    f in {GRAY8, NV12, NV21, I420, YV12, Y41B, Y42B, Y444}
  }

  predicate Convertible(f: Format) {
    f in {BGR, RGB, BGRA, BGRx, RGBA, RGBx, YUY2, UYVY}
  }

  datatype ClockSeen = NoClock | OtherClock | SystemClock(monotonic: bool)

  /** What one pull yields. Times are nanoseconds. */
  datatype Pull =
    | NoSample(bus: Option<seq<BusMessage>>, sinkEos: bool)
    | Sampled(hasBuffer: bool, hasCaps: bool, capsParse: bool, w: int, h: int, maps: bool, format: Format,
              pts: Option<nat>, clock: ClockSeen, base: Option<nat>)

  datatype Frame = Frame(width: int, height: int, captureUs: nat, exact: bool)

  /** The pull carries a sample that is held until the next one. */
  predicate Usable(p: Pull) {
    p.Sampled? && p.hasBuffer && p.hasCaps && p.capsParse && p.w > 0 && p.h > 0 && p.maps
  }

  /** It carries a frame read can hand out. */
  predicate Delivers(p: Pull) {
    Usable(p) && (ZeroCopy(p.format) || Convertible(p.format))
  }

  /** base + PTS in microseconds, when it counts as the capture time: both valid,
      on the monotonic clock, and not further ahead of `check` than the slack. */
  function ExactStamp(p: Pull, monotonic: bool, check: nat): Option<nat> {
    if p.Sampled? && p.pts.Some? && p.base.Some? && monotonic
       && (p.base.value + p.pts.value) / 1000 <= check + FUTURE_SLACK_US
    then Some((p.base.value + p.pts.value) / 1000)
    else None
  }

  /** The stamp of a frame: the exact one if there is one, else its arrival. */
  function StampUs(p: Pull, monotonic: bool, check: nat, arrival: nat): nat {
    var exact := ExactStamp(p, monotonic, check);
    if exact.Some? then exact.value else arrival
  }

  /** The stamp in the pull's own nanoseconds: an exact one is base + PTS, to the whole
      microsecond below; any other is the arrival. It is exact when both times are
      valid, the clock is monotonic, and it lies at most 10 ms past the clock it is
      compared with. */
  predicate StampedAs(p: Pull, monotonic: bool, check: nat, arrival: nat, captureUs: nat, exact: bool) {
    && p.Sampled?
    && (exact <==> p.pts.Some? && p.base.Some? && monotonic
                   && p.base.value + p.pts.value < (check + 10_000) * 1000 + 1000)
    && (exact ==> captureUs * 1000 <= p.base.value + p.pts.value < captureUs * 1000 + 1000)
    && (!exact ==> captureUs == arrival)
  }

  lemma StampIsStamped(p: Pull, monotonic: bool, check: nat, arrival: nat)
    requires p.Sampled?
    ensures StampedAs(p, monotonic, check, arrival, StampUs(p, monotonic, check, arrival),
                      ExactStamp(p, monotonic, check).Some?)
  {
  }

  /** What is known of the pipeline clock after a frame. */
  function MonotonicAfter(before: bool, p: Pull): bool {
    if p.Sampled? && p.pts.Some? && p.clock.SystemClock? then p.clock.monotonic else before
  }

  /** A stamp runs ahead of a publication at `publish` exactly when it is exact and
      base + PTS is later; an arrival time never does. It is never further ahead of
      the arrival than the slack. */
  lemma AheadExactly(p: Pull, monotonic: bool, check: nat, arrival: nat, publish: nat)
    requires check <= arrival <= publish
    ensures StampUs(p, monotonic, check, arrival) > publish <==>
              && p.Sampled? && p.pts.Some? && p.base.Some? && monotonic
              && publish < (p.base.value + p.pts.value) / 1000 <= check + FUTURE_SLACK_US
    ensures StampUs(p, monotonic, check, arrival) <= arrival + FUTURE_SLACK_US
  {
  }

  /** Which samples make a frame: nothing missing, a size, and one of the sixteen
      formats that either hold the grey image already or convert to it. */
  lemma DeliversExactly(p: Pull)
    ensures Delivers(p) <==>
      && p.Sampled? && p.hasBuffer && p.hasCaps && p.capsParse && p.maps && 1 <= p.w && 1 <= p.h
      && p.format != OtherFormat
  {
  }

  /** The bus reports the end of the stream, or an error. */
  predicate BusEnds(bus: Option<seq<BusMessage>>) {
    bus.Some? && BusEos in bus.value
  }

  ghost predicate BusFails(bus: Option<seq<BusMessage>>) {
    bus.Some? && exists i :: 0 <= i < |bus.value| && bus.value[i].BusError?
  }

  /** What a pull without a frame reports. */
  predicate Ends(p: Pull) {
    p.NoSample? && (BusEnds(p.bus) || p.sinkEos)
  }

  ghost predicate Breaks(p: Pull) {
    (p.NoSample? && BusFails(p.bus)) || (p.Sampled? && p.hasBuffer && p.hasCaps && !p.capsParse)
  }

  /** Opening yields a playing pipeline. */
  predicate Plays(o: OpenOutcome) {
    Builds(o) && o.plays
  }

  /** Parsing yields a pipeline with a sink. */
  predicate Builds(o: OpenOutcome) {
    o.parsed && !o.parseError && (o.search.named == Some(true) || AppSinkItem in o.search.items)
  }

  class GstCapture {
    var pipeline: Option<Handle>
    var appsink: Option<Handle>
    var heldSample: Option<Handle>
    var heldMapped: bool
    var heldMap: Handle
    var eos: bool
    var error: bool
    var lastError: string
    var clockIsMonotonic: bool

    /** Handles are numbered in the order they are acquired. */
    var nextId: nat

    /** Every reference ever acquired; those not yet released, and those released. */
    ghost var issued: seq<Handle>
    ghost var live: set<Handle>
    ghost var released: set<Handle>

    /** Every reference acquired is either live or released, never both, and
        nothing else is. */
    ghost predicate Ledger()
      reads this`live, this`released, this`nextId, this`issued
    {
      && |issued| == nextId
      && (forall i :: 0 <= i < |issued| ==> issued[i].id == i)
      && (forall i :: 0 <= i < |issued| ==> issued[i] in live || issued[i] in released)
      && (forall h :: h in live ==> h !in released && h.id < nextId)
      && (forall h :: h in released ==> h.id < nextId)
    }

    /** The reference is one the fields stand for. */
    ghost predicate Owns(h: Handle)
      reads this`pipeline, this`appsink, this`heldSample, this`heldMapped, this`heldMap
    {
      pipeline == Some(h) || appsink == Some(h) || heldSample == Some(h) || (heldMapped && heldMap == h)
    }

    /** Each field holds its own kind; a mapping goes with a held sample, and a
        held sample or sink with an open pipeline. */
    ghost predicate Shape()
      reads this`pipeline, this`appsink, this`heldSample, this`heldMapped, this`heldMap
    {
      && (pipeline.Some? ==> pipeline.value.kind == Pipeline)
      && (appsink.Some? ==> appsink.value.kind == Element)
      && (heldSample.Some? ==> heldSample.value.kind == Sample)
      && (heldMapped ==> heldMap.kind == Mapping)
      && (appsink.Some? <==> pipeline.Some?)
      && (heldMapped <==> heldSample.Some?)
      && (heldSample.Some? ==> pipeline.Some?)
    }

    /** Nothing outside the fields is outstanding. */
    ghost predicate Valid()
      reads this`live, this`released, this`nextId, this`issued,
            this`pipeline, this`appsink, this`heldSample, this`heldMapped, this`heldMap
    {
      Ledger() && Shape() && forall h :: h in live <==> Owns(h)
    }

    ghost function Now(): Status
      reads this`pipeline, this`heldSample, this`eos, this`error, this`clockIsMonotonic
    {
      Status(pipeline.Some?, heldSample.Some?, eos, error, clockIsMonotonic)
    }

    constructor ()
      ensures Valid() && pipeline.None? && live == {} && released == {} && !clockIsMonotonic
    {
      pipeline, appsink, heldSample, heldMapped, heldMap := None, None, None, false, Handle(Mapping, 0);
      eos, error, lastError, clockIsMonotonic, nextId := false, false, "", false, 0;
      issued, live, released := [], {}, {};
    }

    method Acquire(kind: Kind) returns (h: Handle)
      requires Ledger()
      modifies this`nextId, this`issued, this`live
      ensures Ledger() && h.kind == kind && h.id == old(nextId) && nextId == old(nextId) + 1
      ensures live == old(live) + {h} && h !in old(live)
    {
      h := Handle(kind, nextId);
      nextId := nextId + 1;
      live := live + {h};
      issued := issued + [h];
    }

    /** Only a live reference may be released, and ids are never reissued, so no
        reference is released twice. */
    method Release(h: Handle)
      requires Ledger() && h in live
      modifies this`live, this`released
      ensures Ledger() && live == old(live) - {h} && released == old(released) + {h} && h !in old(released)
    {
      live, released := live - {h}, released + {h};
    }

    method DropHeld()
      requires Valid()
      modifies this`heldMapped, this`heldSample, this`live, this`released
      ensures Valid() && heldSample.None? && !heldMapped && old(released) <= released
    {
      hide GstCapture.Ledger;
      if heldMapped && heldSample.Some? {
        Release(heldMap);
        heldMapped := false;
      }
      if heldSample.Some? {
        Release(heldSample.value);
        heldSample := None;
      }
    }

    method Close()
      requires Valid()
      modifies this`pipeline, this`appsink, this`heldMapped, this`heldSample, this`live, this`released
      ensures Valid() && pipeline.None? && heldSample.None? && live == {} && old(released) <= released
    {
      hide GstCapture.Ledger;
      DropHeld();
      if pipeline.Some? {
        if appsink.Some? {
          Release(appsink.value);
          appsink := None;
        }
        Release(pipeline.value);
        pipeline := None;
      }
    }

    /** A reference to the appsink, or none; nothing else stays acquired. */
    method FindAppSink(s: SinkSearch) returns (sink: Option<Handle>)
      requires Ledger()
      modifies this`nextId, this`issued, this`live, this`released
      ensures Ledger() && old(released) <= released && nextId >= old(nextId)
      ensures sink.Some? ==>
        sink.value.kind == Element && sink.value.id >= old(nextId) && live == old(live) + {sink.value}
      ensures sink.None? ==> live == old(live)
      ensures sink.Some? <==> s.named == Some(true) || AppSinkItem in s.items
    {
      hide GstCapture.Ledger;
      if s.named.Some? {
        var named := Acquire(Element);
        if s.named.value {
          return Some(named);
        }
        Release(named);
        assert live == old(live);
      }
      var it := Acquire(Iterator);
      sink := ScanBin(s.items);
      Release(it);
    }

    method ScanBin(items: seq<IteratorStep>) returns (sink: Option<Handle>)
      requires Ledger()
      modifies this`nextId, this`issued, this`live, this`released
      ensures Ledger() && old(released) <= released && nextId >= old(nextId)
      ensures sink.Some? ==>
        sink.value.kind == Element && sink.value.id >= old(nextId) && live == old(live) + {sink.value}
      ensures sink.None? ==> live == old(live)
      ensures sink.Some? <==> AppSinkItem in items
    {
      hide GstCapture.Ledger;
      for i := 0 to |items|
        invariant Ledger() && live == old(live) && old(released) <= released && nextId >= old(nextId)
        invariant AppSinkItem !in items[..i]
      {
        if items[i].AppSinkItem? {
          var item := Acquire(Element);
          var found := Acquire(Element);
          Release(item);
          assert live == old(live) + {found};
          return Some(found);
        }
        if items[i].OtherItem? {
          var item := Acquire(Element);
          Release(item);
          assert live == old(live);
        }
      }
      sink := None;
    }

    method DrainBus(bus: Option<seq<BusMessage>>)
      requires Ledger()
      modifies this`eos, this`error, this`lastError, this`nextId, this`issued, this`live, this`released
      ensures Ledger() && live == old(live) && old(released) <= released
      ensures error == (old(error) || (pipeline.Some? && BusFails(bus)))
      ensures eos == (old(eos) || (pipeline.Some? && BusEnds(bus)))
    {
      hide GstCapture.Ledger;
      if pipeline.None? || bus.None? {
        return;
      }
      var b := Acquire(Bus);
      PopMessages(bus.value);
      Release(b);
    }

    method PopMessages(messages: seq<BusMessage>)
      requires Ledger()
      modifies this`eos, this`error, this`lastError, this`nextId, this`issued, this`live, this`released
      ensures Ledger() && live == old(live) && old(released) <= released
      ensures error == (old(error) || exists i :: 0 <= i < |messages| && messages[i].BusError?)
      ensures eos == (old(eos) || BusEos in messages)
    {
      hide GstCapture.Ledger;
      for i := 0 to |messages|
        invariant Ledger() && live == old(live) && old(released) <= released
        invariant error == (old(error) || exists j :: 0 <= j < i && messages[j].BusError?)
        invariant eos == (old(eos) || BusEos in messages[..i])
      {
        var msg := Acquire(BusPost);
        if messages[i].BusError? {
          lastError := messages[i].text;
          error := true;
        } else {
          assert messages[i] == BusEos;
          eos := true;
        }
        Release(msg);
        assert live == old(live);
      }
    }

    /** gst_parse_launch and the search for the sink: both references, or none. */
    method Build(o: OpenOutcome) returns (ok: bool)
      requires Valid() && pipeline.None?
      modifies this`pipeline, this`appsink, this`nextId, this`issued, this`live, this`released
      ensures Valid() && old(released) <= released
      ensures ok <==> Builds(o)
      ensures if ok then pipeline.Some? && heldSample.None? else pipeline.None? && live == {}
    {
      hide GstCapture.Ledger;
      if o.parseError {
        var gerr := Acquire(ErrorObject);
        Release(gerr);
        assert live == old(live);
      }
      if !o.parsed {
        return false;
      }
      var p := Acquire(Pipeline);
      if o.parseError {
        Release(p);
        return false;
      }
      var sink := FindAppSink(o.search);
      if sink.None? {
        Release(p);
        return false;
      }
      pipeline, appsink := Some(p), sink;
      ok := true;
    }

    method Open(o: OpenOutcome) returns (ok: bool)
      requires Valid()
      modifies this
      ensures Valid() && old(released) <= released
      ensures ok <==> Plays(o)
      ensures ok ==> pipeline.Some? && heldSample.None? && !eos && !error
      ensures !ok ==> pipeline.None? && heldSample.None? && live == {}
      ensures clockIsMonotonic == old(clockIsMonotonic)
      ensures eos == if Builds(o) then !o.plays && BusEnds(o.bus) else old(eos)
      ensures error == if Builds(o) then !o.plays && BusFails(o.bus) else old(error)
    {
      hide GstCapture.Ledger;
      Close();
      ok := Build(o);
      if !ok {
        return;
      }
      eos, error, lastError := false, false, "";
      if !o.plays {
        DrainBus(o.bus);
        Close();
        ok := false;
      }
    }

    /** The time stamp of a sample: base + PTS when the pipeline runs on the
        monotonic clock and the stamp is not more than the slack ahead of `now`,
        otherwise the arrival time. */
    method Stamp(p: Pull, now: nat, arrival: nat) returns (captureUs: nat, exact: bool)
      requires Ledger() && p.Sampled? && now <= arrival
      modifies this`clockIsMonotonic, this`nextId, this`issued, this`live, this`released
      ensures Ledger() && live == old(live) && old(released) <= released
      // a clock that is missing or no system clock leaves what was known before in place
      ensures clockIsMonotonic == MonotonicAfter(old(clockIsMonotonic), p)
      ensures exact <==> ExactStamp(p, clockIsMonotonic, now).Some?
      ensures StampedAs(p, clockIsMonotonic, now, arrival, captureUs, exact)
      ensures captureUs == StampUs(p, clockIsMonotonic, now, arrival)
    {
      hide GstCapture.Ledger;
      exact := false;
      captureUs := 0;
      if p.pts.Some? {
        if !p.clock.NoClock? {
          var clock := Acquire(Clock);
          if p.clock.SystemClock? {
            clockIsMonotonic := p.clock.monotonic;
          }
          Release(clock);
        }
        if clockIsMonotonic && p.base.Some? {
          var stamp := (p.base.value + p.pts.value) / 1000;
          if stamp <= now + FUTURE_SLACK_US {
            captureUs, exact := stamp, true;
          }
        }
      }
      if !exact {
        captureUs := arrival;
      }
    }

    /** `now` and `arrival` are the monotonic clock when the stamp is checked and
        when the arrival time is taken, in microseconds. */
    method Read(p: Pull, now: nat, arrival: nat) returns (got: bool, frame: Frame)
      requires Valid() && now <= arrival
      modifies this
      ensures Valid() && pipeline == old(pipeline) && old(released) <= released
      ensures got <==> old(pipeline.Some?) && Delivers(p)
      ensures got ==> frame.width == p.w && frame.height == p.h
      ensures heldSample.Some? <==> pipeline.Some? && Usable(p)
      ensures clockIsMonotonic == if got then MonotonicAfter(old(clockIsMonotonic), p) else old(clockIsMonotonic)
      ensures got ==> frame.captureUs == StampUs(p, clockIsMonotonic, now, arrival)
      ensures got ==> (frame.exact <==> ExactStamp(p, clockIsMonotonic, now).Some?)
      ensures got ==> StampedAs(p, clockIsMonotonic, now, arrival, frame.captureUs, frame.exact)
      // a valid PTS with a system clock at hand tells of the clock; nothing else does
      ensures got && p.pts.Some? && p.clock.SystemClock? ==> clockIsMonotonic == p.clock.monotonic
      ensures got && (p.pts.None? || !p.clock.SystemClock?) ==> clockIsMonotonic == old(clockIsMonotonic)
      // the flags rise exactly on what the pull reports
      ensures eos == (old(eos) || (old(pipeline.Some?) && Ends(p)))
      ensures error == (old(error) || (old(pipeline.Some?) && Breaks(p)))
    {
      hide GstCapture.Ledger;
      got, frame := false, Frame(0, 0, 0, false);
      if pipeline.None? || appsink.None? {
        return;
      }
      DropHeld();
      if p.NoSample? {
        DrainBus(p.bus);
        if p.sinkEos {
          eos := true;
        }
        return;
      }
      got := Hold(p);
      if got {
        var captureUs, exact := Stamp(p, now, arrival);
        frame := Frame(p.w, p.h, captureUs, exact);
      }
    }

    /** Map the sample and hold both. */
    method Keep(sample: Handle)
      requires Ledger() && Shape() && (forall h :: h in live <==> Owns(h) || h == sample) && !Owns(sample)
      requires sample.kind == Sample && pipeline.Some? && heldSample.None?
      modifies this`heldSample, this`heldMapped, this`heldMap, this`nextId, this`issued, this`live
      ensures Valid() && heldSample == Some(sample)
    {
      hide GstCapture.Ledger;
      heldMap := Acquire(Mapping);
      heldSample := Some(sample);
      heldMapped := true;
    }

    /** Keep the sample and its mapping until the next read, if it is usable. An
        unsupported format keeps both and still yields no frame. */
    method Hold(p: Pull) returns (got: bool)
      requires Valid() && p.Sampled? && pipeline.Some? && heldSample.None?
      modifies this`heldSample, this`heldMapped, this`heldMap, this`error, this`lastError,
               this`nextId, this`issued, this`live, this`released
      ensures Valid() && old(released) <= released
      ensures got <==> Delivers(p)
      ensures heldSample.Some? <==> Usable(p)
      ensures error == (old(error) || Breaks(p))
    {
      hide GstCapture.Ledger;
      var sample := Acquire(Sample);
      if !p.hasBuffer || !p.hasCaps || !p.capsParse || p.w <= 0 || p.h <= 0 || !p.maps {
        Release(sample);
        if p.hasBuffer && p.hasCaps && !p.capsParse {
          lastError := "could not parse video caps from appsink";
          error := true;
        }
        return false;
      }
      Keep(sample);
      got := ZeroCopy(p.format) || Convertible(p.format);
    }
  }

  datatype Call = CallOpen(o: OpenOutcome) | CallRead(p: Pull, now: nat, wait: nat) | CallClose

  /** What calls can tell of a capture. */
  datatype Status = Status(playing: bool, holding: bool, eos: bool, error: bool, monotonic: bool)

  ghost function AfterCall(s: Status, call: Call): Status {
    match call
    case CallOpen(o) =>
      if !Builds(o) then s.(playing := false, holding := false)
      else Status(o.plays, false, !o.plays && BusEnds(o.bus), !o.plays && BusFails(o.bus), s.monotonic)
    case CallRead(p, _, _) =>
      if !s.playing then s
      else Status(true, Usable(p), s.eos || Ends(p), s.error || Breaks(p),
                  if Delivers(p) then MonotonicAfter(s.monotonic, p) else s.monotonic)
    case CallClose => s.(playing := false, holding := false)
  }

  ghost function AfterCalls(s: Status, calls: seq<Call>): Status {
    if calls == [] then s else AfterCall(AfterCalls(s, calls[..|calls| - 1]), calls[|calls| - 1])
  }

  /** In any valid state the references outstanding are the pipeline and its sink, and
      the sample and its mapping: each pair together or not at all. */
  lemma LiveCount(c: GstCapture)
    requires c.Valid()
    ensures |c.live| == (if c.pipeline.Some? then 2 else 0) + (if c.heldSample.Some? then 2 else 0)
  {
    var none: set<Handle> := {};
    var open := if c.pipeline.Some? then {c.pipeline.value, c.appsink.value} else none;
    var held := if c.heldSample.Some? then {c.heldSample.value, c.heldMap} else none;
    assert c.live == open + held && open !! held;
    assert |c.live| == |open| + |held|;
  }

  method OneCall(c: GstCapture, call: Call)
    requires c.Valid()
    modifies c
    ensures c.Valid() && old(c.released) <= c.released && c.Now() == AfterCall(old(c.Now()), call)
  {
    hide GstCapture.Ledger, Ends, Breaks, BusEnds, BusFails, Builds, Usable, Delivers, MonotonicAfter;
    match call
    case CallOpen(o) =>
      var _ := c.Open(o);
    case CallRead(p, now, wait) =>
      var _, _ := c.Read(p, now, now + wait);
    case CallClose =>
      c.Close();
  }

  /** Any sequence of calls, with any mix of failures: what they tell of the capture is
      what the calls make of it one by one; at every point the references outstanding
      are those of an open pipeline and a held sample; and after a final close every
      reference acquired has been released exactly once. */
  method AnyCalls(c: GstCapture, calls: seq<Call>) returns (ghost outstanding: seq<nat>)
    requires c.Valid()
    modifies c
    ensures c.Valid() && c.live == {} && old(c.released) <= c.released
    ensures forall i :: 0 <= i < |c.issued| ==> c.issued[i] in c.released
    ensures c.Now() == AfterCall(AfterCalls(old(c.Now()), calls), CallClose)
    ensures |outstanding| == |calls| + 1
    ensures forall i :: 0 <= i <= |calls| ==> outstanding[i] == Outstanding(AfterCalls(old(c.Now()), calls[..i]))
  {
    hide GstCapture.Valid, GstCapture.Ledger, AfterCall;
    LiveCount(c);
    NowMeans(c);
    outstanding := [|c.live|];
    ghost var start := c.Now();
    for i := 0 to |calls|
      invariant c.Valid() && old(c.released) <= c.released
      invariant c.Now() == AfterCalls(start, calls[..i]) && |outstanding| == i + 1
      invariant forall k :: 0 <= k <= i ==> outstanding[k] == Outstanding(AfterCalls(start, calls[..k]))
    {
      OneCall(c, calls[i]);
      assert calls[..i + 1][..i] == calls[..i];
      LiveCount(c);
      NowMeans(c);
      outstanding := outstanding + [|c.live|];
    }
    assert calls[..|calls|] == calls;
    OneCall(c, CallClose);
    ClosedMeans(c, AfterCalls(start, calls));
  }

  function Outstanding(s: Status): nat {
    (if s.playing then 2 else 0) + (if s.holding then 2 else 0)
  }

  lemma NowMeans(c: GstCapture)
    ensures Outstanding(c.Now()) == (if c.pipeline.Some? then 2 else 0) + (if c.heldSample.Some? then 2 else 0)
  {
  }

  /** A closed capture has nothing outstanding. */
  lemma ClosedMeans(c: GstCapture, before: Status)
    requires c.Valid() && c.Now() == AfterCall(before, CallClose)
    ensures c.live == {} && forall i :: 0 <= i < |c.issued| ==> c.issued[i] in c.released
  {
  }

  /** In any valid state at most four references are outstanding, of distinct
      kinds: never two samples or two mappings. */
  lemma AtMostOneOfAKind(c: GstCapture, a: Handle, b: Handle)
    requires c.Valid() && a in c.live && b in c.live && a.kind == b.kind
    ensures a == b
  {
  }
}
