// One camera's worker (src/stream_worker.cpp): the read / rate-limit / detect /
// publish or heartbeat / watchdog / rebuild loop. The environment (frames, bus
// messages, decoded markers, clock advance, socket, stop flag) is a sequence of
// arbitrary inputs. The clock is a field that only grows, by the amounts the
// inputs say; a sleep lasts at least as long as asked.
module StreamWorkers {
  import opened Wrappers
  import opened AppConfigs
  import opened Detectors
  import opened UdpPublishers
  import opened RunLogs
  import opened WorkerTraces
  import G = GstCaptures

  // ----- statistics windows -----

  /** What one statistics line reports, and how many of the detector's verdicts had
      been given when it was printed. */
  datatype Window = Window(
    framesIn: nat, framesDetected: nat, framesSkipped: nat, heartbeats: nat, ds: Stats, upTo: nat)

  datatype Counter =
    FramesIn | FramesDetected | FramesSkipped | Heartbeats
    | Decoded | BadId | BadPnp | BadReproj | BadRange | Published

  function Reading(w: Window, c: Counter): nat {
    match c
    case FramesIn => w.framesIn
    case FramesDetected => w.framesDetected
    case FramesSkipped => w.framesSkipped
    case Heartbeats => w.heartbeats
    case Decoded => w.ds.decoded
    case BadId => w.ds.rejectedId
    case BadPnp => w.ds.rejectedPnp
    case BadReproj => w.ds.rejectedReproj
    case BadRange => w.ds.rejectedRange
    case Published => w.ds.accepted
  }

  function SumOf(ws: seq<Window>, c: Counter): nat {
    if ws == [] then 0 else SumOf(ws[..|ws| - 1], c) + Reading(ws[|ws| - 1], c)
  }

  /** A window whose frames were all detected or skipped. */
  predicate Balanced(w: Window) {
    w.framesIn == w.framesDetected + w.framesSkipped
  }

  ghost predicate AllBalanced(ws: seq<Window>) {
    forall i :: 0 <= i < |ws| ==> Balanced(ws[i])
  }

  lemma BalancedSnoc(ws: seq<Window>, w: Window)
    requires AllBalanced(ws) && Balanced(w)
    ensures AllBalanced(ws + [w])
  {
  }

  lemma SumsSnoc(ws: seq<Window>, w: Window)
    ensures SumOf(ws + [w], FramesIn) == SumOf(ws, FramesIn) + w.framesIn
    ensures SumOf(ws + [w], FramesDetected) == SumOf(ws, FramesDetected) + w.framesDetected
    ensures SumOf(ws + [w], FramesSkipped) == SumOf(ws, FramesSkipped) + w.framesSkipped
    ensures SumOf(ws + [w], Heartbeats) == SumOf(ws, Heartbeats) + w.heartbeats
  {
    assert (ws + [w])[..|ws|] == ws;
  }

  function UpTo(printed: seq<Window>): nat {
    if printed == [] then 0 else printed[|printed| - 1].upTo
  }

  /** Every printed line reports the detector's verdicts since the line before it. */
  ghost predicate Slices(printed: seq<Window>, seen: seq<Verdict>) {
    printed == [] ||
    var before, w := printed[..|printed| - 1], printed[|printed| - 1];
    && UpTo(before) <= w.upTo <= |seen|
    && w.ds == TallyOf(seen[UpTo(before)..w.upTo])
    && Slices(before, seen)
  }

  lemma SlicesSnoc(printed: seq<Window>, seen: seq<Verdict>, w: Window)
    requires Slices(printed, seen)
    requires w.ds == TallyOf(seen[UpTo(printed)..]) && w.upTo == |seen|
    ensures Slices(printed + [w], seen) && UpTo(printed + [w]) == |seen|
  {
    assert (printed + [w])[..|printed|] == printed;
    assert seen[UpTo(printed)..|seen|] == seen[UpTo(printed)..];
  }

  lemma {:induction false} SlicesGrow(printed: seq<Window>, seen: seq<Verdict>, more: seq<Verdict>)
    requires Slices(printed, seen)
    ensures Slices(printed, seen + more)
  {
    if printed != [] {
      var before, w := printed[..|printed| - 1], printed[|printed| - 1];
      assert (seen + more)[UpTo(before)..w.upTo] == seen[UpTo(before)..w.upTo];
      SlicesGrow(before, seen, more);
    }
  }

  predicate OfDetector(c: Counter) {
    c in {Decoded, BadId, BadPnp, BadReproj, BadRange, Published}
  }

  function StatsReading(s: Stats, c: Counter): nat
    requires OfDetector(c)
  {
    Reading(Window(0, 0, 0, 0, s, 0), c)
  }

  lemma ReadingAdds(a: seq<Verdict>, b: seq<Verdict>, c: Counter)
    requires OfDetector(c)
    ensures StatsReading(TallyOf(a), c) + StatsReading(TallyOf(b), c) == StatsReading(TallyOf(a + b), c)
  {
    TallyConcat(a, b);
  }

  lemma {:induction false} SlicesAddUp(printed: seq<Window>, seen: seq<Verdict>, c: Counter)
    requires Slices(printed, seen) && OfDetector(c)
    ensures UpTo(printed) <= |seen|
    ensures SumOf(printed, c) == StatsReading(TallyOf(seen[..UpTo(printed)]), c)
  {
    if printed != [] {
      var before, w := printed[..|printed| - 1], printed[|printed| - 1];
      SlicesAddUp(before, seen, c);
      assert seen[..w.upTo] == seen[..UpTo(before)] + seen[UpTo(before)..w.upTo];
      ReadingAdds(seen[..UpTo(before)], seen[UpTo(before)..w.upTo], c);
    }
  }

  /** Counter by counter, the printed lines and the live counters add up to the
      tally of every verdict of the run. */
  lemma WindowsAddUp(printed: seq<Window>, seen: seq<Verdict>, c: Counter)
    requires Slices(printed, seen) && UpTo(printed) <= |seen| && OfDetector(c)
    ensures SumOf(printed, c) + StatsReading(TallyOf(seen[UpTo(printed)..]), c) == StatsReading(TallyOf(seen), c)
  {
    hide TallyOf, SumOf, Slices, StatsReading, UpTo;
    SlicesAddUp(printed, seen, c);
    assert seen == seen[..UpTo(printed)] + seen[UpTo(printed)..];
    ReadingAdds(seen[..UpTo(printed)], seen[UpTo(printed)..], c);
  }

  // ----- the messages of a run -----

  /** What every detection entry of this stream is. */
  ghost predicate GoodEntry(cfg: StreamConfig, pd: WireDetection) {
    && |pd.t| == 3 && |pd.r| == 9
    && cfg.detector.minRange <= pd.t[2] <= cfg.detector.maxRange
    && pd.size > 0.0 && pd.cameraId == cfg.cameraId
  }

  /** What every datagram of this stream is. */
  ghost predicate GoodMessage(cfg: StreamConfig, domain: string, m: Message) {
    && m.cameraId == cfg.cameraId && m.clockDomain == domain
    && (m.heartbeat ==> m.detections == [] && m.captureUs <= m.publishUs)
    && (!m.heartbeat ==> m.detections != [] && m.captureUs <= m.publishUs + G.FUTURE_SLACK_US)
    && (forall i :: 0 <= i < |m.detections| ==> GoodEntry(cfg, m.detections[i]))
  }

  ghost predicate AllGood(cfg: StreamConfig, domain: string, ms: seq<Message>) {
    forall i :: 0 <= i < |ms| ==> GoodMessage(cfg, domain, ms[i])
  }

  lemma EntriesAreGood(cfg: StreamConfig, domain: string, m: Message, out: seq<Detection>)
    requires out != [] && |m.detections| == |out|
    requires forall i :: 0 <= i < |out| ==> WithinGates(cfg, out[i]) && IsWireOf(m.detections[i], out[i], cfg.cameraId)
    requires m.cameraId == cfg.cameraId && m.clockDomain == domain && !m.heartbeat
    requires m.captureUs <= m.publishUs + G.FUTURE_SLACK_US
    ensures GoodMessage(cfg, domain, m)
  {
  }

  function CountBeats(ms: seq<Message>): nat {
    if ms == [] then 0 else CountBeats(ms[..|ms| - 1]) + if ms[|ms| - 1].heartbeat then 1 else 0
  }

  function CountEntries(ms: seq<Message>): nat {
    if ms == [] then 0 else CountEntries(ms[..|ms| - 1]) + |ms[|ms| - 1].detections|
  }

  /** The publishing state in the middle of an iteration that has sent `pending`. */
  ghost predicate PublishState(tr: seq<Iteration>, start: nat, period: nat, sent: seq<Message>, frameId: nat,
                               lastPublish: nat, pending: seq<Message>) {
    && Disciplined(tr, start, period)
    && sent == Datagrams(tr) + pending && frameId == |sent|
    && |pending| <= 1
    && (pending == [] ==> lastPublish == LastPublish(tr, start))
    && (pending != [] ==> pending[0].frameId == |Datagrams(tr)| + 1)
    && (pending != [] && pending[0].heartbeat ==> period > 0 && lastPublish - LastPublish(tr, start) >= period)
  }

  lemma NothingYet(cfg: StreamConfig, domain: string, start: nat, period: nat)
    ensures PublishState([], start, period, [], 0, start, []) && AllGood(cfg, domain, [])
  {
  }

  lemma OneMore(cfg: StreamConfig, domain: string, tr: seq<Iteration>, start: nat, period: nat, sent: seq<Message>,
                frameId: nat, lastPublish: nat, now: nat, m: Message)
    requires PublishState(tr, start, period, sent, frameId, lastPublish, [])
    requires AllGood(cfg, domain, sent) && GoodMessage(cfg, domain, m)
    requires m.frameId == frameId + 1
    requires m.heartbeat ==> period > 0 && now - lastPublish >= period
    ensures PublishState(tr, start, period, sent + [m], frameId + 1, now, [m])
    ensures AllGood(cfg, domain, sent + [m])
    ensures CountBeats(sent + [m]) == CountBeats(sent) + if m.heartbeat then 1 else 0
    ensures CountEntries(sent + [m]) == CountEntries(sent) + |m.detections|
  {
    assert (sent + [m])[..|sent|] == sent;
    assert sent + [] == sent;
  }

  lemma IterationEnds(tr: seq<Iteration>, start: nat, period: nat, sent: seq<Message>, frameId: nat, lastPublish: nat,
                      it: Iteration)
    requires PublishState(tr, start, period, sent, frameId, lastPublish, it.sent)
    requires LastNow(tr, start) <= it.now
    requires it.sent != [] ==> it.gotFrame && lastPublish == it.now
    requires it.gotFrame && it.sent == [] && period > 0 ==> it.now - lastPublish < period
    ensures PublishState(tr + [it], start, period, sent, frameId, lastPublish, [])
  {
    DisciplinedSnoc(tr, it, start, period);
    DatagramsSnoc(tr, it);
    assert sent + [] == sent;
  }

  lemma TraceSnoc(tr: seq<Iteration>, it: Iteration, start: nat)
    ensures |FrameTimes(tr + [it])| == |FrameTimes(tr)| + if it.gotFrame then 1 else 0
    ensures LastNow(tr + [it], start) == it.now
    ensures LastLook(tr + [it]) == if it.looked then it.now else LastLook(tr)
    ensures RebuildTimes(tr + [it]) == RebuildTimes(tr) + if it.outcome.Rebuilt? then [it.now] else []
  {
    assert (tr + [it])[..|tr|] == tr;
  }

  /** The detector ran at these instants, the last at `last`: at least a period apart. */
  ghost predicate Paced(times: seq<nat>, period: nat, last: nat) {
    && (forall i :: 0 <= i < |times| - 1 ==> times[i + 1] - times[i] >= period)
    && (times != [] ==> times[|times| - 1] == last)
  }

  lemma PacedSnoc(times: seq<nat>, period: nat, last: nat, now: nat)
    requires Paced(times, period, last) && (times != [] ==> now - last >= period)
    ensures Paced(times + [now], period, now)
  {
    var all := times + [now];
    forall i | 0 <= i < |all| - 1 ensures all[i + 1] - all[i] >= period {
      assert i < |times| - 1 ==> times[i + 1] - times[i] >= period;
    }
  }

  lemma AcceptedGrow(seen: seq<Verdict>, vs: seq<Verdict>)
    ensures TallyOf(seen + vs).accepted == TallyOf(seen).accepted + |AcceptedOf(vs)|
  {
    TallyConcat(seen, vs);
    EveryMarkerHasOneFate(vs);
  }

  /** The message carries these detections of this frame. */
  ghost predicate Carries(cfg: StreamConfig, m: Message, out: seq<Detection>, frame: G.Frame, publishUs: nat) {
    && !m.heartbeat && |m.detections| == |out|
    && (forall i :: 0 <= i < |out| ==> IsWireOf(m.detections[i], out[i], cfg.cameraId))
    && m.width == frame.width && m.height == frame.height
    && m.captureUs == frame.captureUs && m.publishUs == publishUs
  }

  /** What leaves in an iteration whose detector found `out`. */
  ghost predicate Outgoing(cfg: StreamConfig, on: bool, sent: seq<Message>, out: seq<Detection>, frame: G.Frame,
                           publishUs: nat) {
    if !on then sent == []
    else if out == [] then sent == [] || sent[0].heartbeat
    else |sent| == 1 && Carries(cfg, sent[0], out, frame, publishUs)
  }

  lemma NothingOutgoing(cfg: StreamConfig, on: bool, frame: G.Frame, publishUs: nat)
    ensures Outgoing(cfg, on, [], [], frame, publishUs)
  {
  }

  lemma MaybeBeaten(cfg: StreamConfig, on: bool, pending: seq<Message>, sent: seq<Message>, out: seq<Detection>,
                    frame: G.Frame, publishUs: nat)
    requires Outgoing(cfg, on, pending, out, frame, publishUs) && (pending != [] ==> !pending[0].heartbeat)
    requires sent == pending || (pending == [] && on && |sent| == 1 && sent[0].heartbeat)
    ensures Outgoing(cfg, on, sent, out, frame, publishUs)
  {
  }

  /** The log's account of an iteration with a frame. */
  lemma FrameFollows(cfg: StreamConfig, on: bool, period: nat, first: nat, tr: seq<Iteration>, passes: seq<Pass>,
                     it: Iteration, e: Pass, frame: G.Frame)
    requires |tr| == |passes| && Begins(tr, first, it.from) && it.now == it.from + e.toStamp + e.toArrival + e.toNow
    requires it.gotFrame && it.outcome.Served? && G.Delivers(e.pull)
    requires it.looked <==> period == 0 || it.now - LastLook(tr) >= period
    requires var flags := FlagsAfterPull(FlagsAt(tr, passes), e.pull);
             it.flagged == (flags != Flags(false, false)) && it.ending == (flags.ended && cfg.exitOnEos)
    requires frame.width == e.pull.w && frame.height == e.pull.h
    requires frame.captureUs == G.StampUs(e.pull, MonotonicSeen(passes + [e]), CheckUs(it, e), ArrivalUs(it, e))
    requires Outgoing(cfg, on, it.sent, Found(cfg, it, e), frame, PublishUs(it, e))
    ensures Follows(cfg, on, period, first, tr, passes, it, e)
  {
    hide G.StampUs, MonotonicSeen, FlagsAt, FlagsAfterPull, IsWireOf, Found;
  }

  /** What becomes of an iteration without a frame. */
  function IdleOutcome(ending: bool, flagged: bool, idleUs: int, watchdog: real, resumed: nat): Outcome {
    if ending then Ended else if flagged || Seconds(idleUs) > watchdog then Rebuilt(resumed) else Waited
  }

  /** The log's account of an iteration without one. */
  lemma IdleFollows(cfg: StreamConfig, on: bool, period: nat, first: nat, tr: seq<Iteration>, passes: seq<Pass>,
                    it: Iteration, e: Pass, resumed: nat)
    requires |tr| == |passes| && Begins(tr, first, it.from) && it.now == it.from + e.toStamp + e.toArrival + e.toNow
    requires !it.gotFrame && !it.looked && it.sent == [] && !G.Delivers(e.pull)
    requires var flags := FlagsAfterPull(FlagsAt(tr, passes), e.pull);
             it.flagged == (flags != Flags(false, false)) && it.ending == (flags.ended && cfg.exitOnEos)
    requires it.outcome == IdleOutcome(it.ending, it.flagged, it.now - IdleSince(tr, first), cfg.watchdogSec, resumed)
    requires resumed >= it.now
    ensures Follows(cfg, on, period, first, tr, passes, it, e)
  {
    hide G.StampUs, MonotonicSeen, FlagsAt, FlagsAfterPull, Seconds;
  }

  /** The frame that the iteration begun at `from` read, and when. */
  ghost predicate FrameRead(tr: seq<Iteration>, passes: seq<Pass>, first: nat, frame: G.Frame, e: Pass, from: nat,
                            now: nat) {
    && Begins(tr, first, from) && now == from + e.toStamp + e.toArrival + e.toNow
    && G.Delivers(e.pull) && frame.width == e.pull.w && frame.height == e.pull.h
    && frame.captureUs == G.StampUs(e.pull, MonotonicSeen(passes + [e]), from + e.toStamp,
                                    from + e.toStamp + e.toArrival)
  }

  lemma FrameReadInTime(tr: seq<Iteration>, passes: seq<Pass>, first: nat, frame: G.Frame, e: Pass, from: nat, now: nat)
    requires FrameRead(tr, passes, first, frame, e, from, now)
    ensures frame.captureUs <= now + G.FUTURE_SLACK_US
  {
    G.AheadExactly(e.pull, MonotonicSeen(passes + [e]), from + e.toStamp, from + e.toStamp + e.toArrival, now);
  }

  /** One more iteration, with these inputs, which read this time. */
  ghost predicate OneLater(tr: seq<Iteration>, passes: seq<Pass>, tr': seq<Iteration>, passes': seq<Pass>, e: Pass,
                           now: nat) {
    passes' == passes + [e] && |tr'| == |tr| + 1 && tr'[..|tr|] == tr && tr'[|tr|].now == now
  }

  lemma ItsFrame(tr: seq<Iteration>, passes: seq<Pass>, first: nat, frame: G.Frame, e: Pass, from: nat, now: nat)
    requires Begins(tr, first, from) && now == from + e.toStamp + e.toArrival + e.toNow
    requires G.Delivers(e.pull) && e.pull.Sampled? && frame.width == e.pull.w && frame.height == e.pull.h
    requires frame.captureUs == G.StampUs(e.pull, MonotonicSeen(passes + [e]), from + e.toStamp,
                                          from + e.toStamp + e.toArrival)
    ensures FrameRead(tr, passes, first, frame, e, from, now)
  {
  }

  /** An iteration that ends the run or does not. */
  lemma StepOn(tr: seq<Iteration>, passes: seq<Pass>, tr': seq<Iteration>, passes': seq<Pass>, e: Pass, now: nat,
               start: nat, stopped: bool)
    requires OneLater(tr, passes, tr', passes', e, now) && GoesOn(tr, passes, start)
    requires stopped <==> Halts(LastOutcome(tr'), now - LastRebuildAt(tr, start), e)
    ensures if stopped then Halted(tr', passes', start) else GoesOn(tr', passes', start)
  {
    hide Halts, LastRebuildAt, GoesOn, Halted;
    var it := tr'[|tr|];
    assert tr' == tr + [it];
    OneIterationOn(tr, passes, start, it, e);
  }

  lemma NothingOn(start: nat)
    ensures GoesOn([], [], start)
  {
  }

  lemma Grown(tr: seq<Iteration>, passes: seq<Pass>, tr': seq<Iteration>, passes': seq<Pass>, e: Pass, now: nat)
    requires OneLater(tr, passes, tr', passes', e, now)
    ensures passes' == passes + [e] && |tr'| == |tr| + 1
  {
  }

  lemma DeliversSampled(p: G.Pull)
    ensures G.Delivers(p) ==> p.Sampled?
  {
  }

  lemma NoRebuildTimes(tr: seq<Iteration>)
    ensures RebuildTimes(tr) + [] == RebuildTimes(tr)
  {
  }

  class StreamWorker {
    const cfg: StreamConfig
    const statsIntervalSec: Int32
    const capture: G.GstCapture
    const detector: Detector
    const udp: UdpPublisher?
    const domain: string
    const heartbeatPeriodUs: nat
    const detectPeriodUs: nat

    var frameId: nat
    var lastW: int
    var lastH: int
    var lastPublishUs: nat
    var lastDetectUs: nat
    var lastStatsUs: nat
    var lastRebuildUs: nat
    var rebuildBackoffS: nat
    var framesIn: nat
    var framesDetected: nat
    var framesSkipped: nat
    var heartbeats: nat
    var rebuilds: nat
    var detectMsSum: real

    /** The monotonic clock. */
    var clock: nat

    ghost var startUs: nat
    ghost var trace: seq<Iteration>

    /** The inputs of every iteration in the trace, and the clock when the first began. */
    ghost var passLog: seq<Pass>
    ghost var firstUs: nat
    ghost var rebuildStart: nat
    ghost var rebuildLog: seq<Rebuild>
    ghost var detectTimes: seq<nat>

    /** Statistics lines printed. */
    ghost var printed: seq<Window>

    ghost predicate Wired() {
      && detector.cfg == cfg
      && (udp != null ==> udp.cameraId == cfg.cameraId && udp.clockDomain == domain)
    }

    /** No stored time lies ahead of the clock, so no difference wraps. */
    ghost predicate Clocks()
      reads this`clock, this`lastPublishUs, this`lastDetectUs, this`lastStatsUs, this`lastRebuildUs
    {
      lastPublishUs <= clock && lastDetectUs <= clock && lastStatsUs <= clock && lastRebuildUs <= clock
    }

    ghost predicate Publishing(pending: seq<Message>)
      reads this`trace, this`startUs, this`frameId, this`lastPublishUs, udp
    {
      udp != null ==>
        && udp.Valid()
        && PublishState(trace, startUs, heartbeatPeriodUs, udp.sent, frameId, lastPublishUs, pending)
        && AllGood(cfg, domain, udp.sent)
    }

    /** Every heartbeat counted is on the wire, and so is every detection accepted,
        but for `owed` of this iteration. */
    ghost predicate Accounted(owed: nat)
      reads this`printed, this`heartbeats, detector`seen, udp
    {
      udp != null ==>
        && CountBeats(udp.sent) == SumOf(printed, Heartbeats) + heartbeats
        && CountEntries(udp.sent) + owed == TallyOf(detector.seen).accepted
    }

    ghost predicate Rebuilding()
      reads this`rebuildLog, this`rebuildStart, this`lastRebuildUs, this`rebuildBackoffS, this`rebuilds
    {
      && RebuildsOk(rebuildLog, rebuildStart) && rebuilds == |rebuildLog|
      && LastRebuild(rebuildLog, rebuildStart) == Rebuild(lastRebuildUs, rebuildBackoffS)
    }

    /** The log of the run so far. */
    ghost predicate Logging()
      reads this`trace, this`passLog, this`firstUs
    {
      Logged(cfg, udp != null, detectPeriodUs, firstUs, trace, passLog)
    }

    /** The worker's fields are what the log says. */
    ghost predicate Tracking()
      reads this`trace, this`passLog, this`lastDetectUs, this`rebuildLog, detector`seen, detector`sizes
    {
      && |trace| == |passLog|
      && lastDetectUs == LastLook(trace)
      && AtTimes(rebuildLog) == RebuildTimes(trace)
      && detector.seen == SeenOf(cfg, trace, passLog) && detector.sizes == SizesOf(trace, passLog)
    }

    /** So are the capture's flags, while it is open. */
    ghost predicate Capturing()
      reads this`trace, this`passLog, capture
    {
      && |trace| == |passLog|
      && capture.Valid() && capture.pipeline.Some?
      && Flags(capture.eos, capture.error) == FlagsAt(trace, passLog)
      && capture.clockIsMonotonic == MonotonicSeen(passLog)
    }

    /** What the printed lines say of the detector. */
    ghost predicate Reporting()
      reads this`printed, detector
    {
      detector.Valid() && Slices(printed, detector.seen) && UpTo(printed) == detector.taken
    }

    /** Printed and live counters together count every frame of the run: `arrived`
        of them, `handled` of those detected or skipped; and every printed line, and
        the live counters but for the frame at hand, balance by themselves. */
    ghost predicate Counting(arrived: nat, handled: nat)
      reads this`framesIn, this`framesDetected, this`framesSkipped, this`printed, this`detectTimes
    {
      && SumOf(printed, FramesIn) + framesIn == arrived
      && SumOf(printed, FramesDetected) + framesDetected == |detectTimes|
      && SumOf(printed, FramesSkipped) + framesSkipped == handled - |detectTimes|
      && AllBalanced(printed) && framesIn - (arrived - handled) == framesDetected + framesSkipped
    }

    /** What is published and counted, between iterations. */
    ghost predicate Steady()
      reads this`trace, this`startUs, this`frameId, this`lastPublishUs, this`lastDetectUs, this`detectTimes,
            this`printed, this`framesIn, this`framesDetected, this`framesSkipped, this`heartbeats, detector, udp
    {
      && Wired() && Reporting() && Publishing([]) && Accounted(0)
      && Counting(|FrameTimes(trace)|, |FrameTimes(trace)|) && Paced(detectTimes, detectPeriodUs, lastDetectUs)
    }

    /** At the head of the loop: also, the last rebuild's backoff has been waited. */
    ghost predicate Head()
      reads this, capture, detector, udp
    {
      && Steady() && Rebuilding() && Logging() && Tracking() && Capturing() && Clocks()
      && LastNow(trace, startUs) <= clock && IdleSince(trace, firstUs) <= clock
      && (if trace == [] then clock == firstUs else trace[|trace| - 1].now <= clock)
      && lastRebuildUs + rebuildBackoffS * SECOND <= clock
    }

    /** A worker that has not run yet. */
    ghost predicate Idle()
      reads this, capture, detector, udp
    {
      && Wired() && capture.Valid() && Reporting() && Counting(0, 0) && Accounted(0)
      && (udp != null ==> udp.Valid() && udp.sent == [])
      && trace == [] && rebuildLog == [] && detectTimes == [] && frameId == 0 && rebuilds == 0
      && rebuildBackoffS == 0 && lastDetectUs == 0 && capture.live == {} && !capture.clockIsMonotonic
      && passLog == [] && detector.seen == [] && detector.sizes == []
    }

    lemma Unstarted()
      requires Idle()
      ensures capture.Valid() && capture.live == {} && !capture.clockIsMonotonic
      ensures lastDetectUs == 0 && detector.seen == [] && detector.sizes == [] && trace == [] && passLog == []
      ensures rebuildLog == [] && rebuilds == 0 && rebuildBackoffS == 0
    {
    }

    constructor (cfg: StreamConfig, udpCfg: UdpConfig, logCfg: LoggingConfig, domain: string, offset: int, now: nat)
      ensures Idle() && clock == now
      ensures fresh(capture) && fresh(detector) && (udp != null ==> fresh(udp))
      ensures this.cfg == cfg && this.domain == domain && (udp != null <==> udpCfg.enabled)
      ensures heartbeatPeriodUs == PeriodUs(udpCfg.heartbeatHz) && detectPeriodUs == PeriodUs(cfg.detectFps)
      ensures statsIntervalSec == logCfg.statsIntervalSec
    {
      this.cfg, this.domain := cfg, domain;
      statsIntervalSec := logCfg.statsIntervalSec;
      heartbeatPeriodUs := PeriodUs(udpCfg.heartbeatHz);
      detectPeriodUs := PeriodUs(cfg.detectFps);
      capture := new G.GstCapture();
      detector := new Detector(cfg);
      if udpCfg.enabled {
        var u := new UdpPublisher(cfg.cameraId, domain, offset);
        udp := u;
      } else {
        udp := null;
      }
      frameId, lastW, lastH := 0, cfg.frameWidth, cfg.frameHeight;
      lastPublishUs, lastDetectUs, lastStatsUs, lastRebuildUs, rebuildBackoffS := 0, 0, 0, 0, 0;
      framesIn, framesDetected, framesSkipped, heartbeats, rebuilds, detectMsSum := 0, 0, 0, 0, 0, 0.0;
      clock := now;
      startUs, trace, passLog, firstUs, rebuildStart, rebuildLog, detectTimes := 0, [], [], 0, 0, [], [];
      printed := [];
    }

    /** Tries again, after doubling waits, until a pipeline plays or the worker is
        stopped; inputs that run out stand for that. */
    method OpenCapture(tries: seq<OpenTry>) returns (ok: bool, failures: nat)
      requires capture.Valid()
      modifies this`clock, capture
      ensures capture.Valid() && old(capture.released) <= capture.released
      ensures clock >= old(clock)
      ensures ok ==> capture.pipeline.Some? && clock >= old(clock) + RetrySeconds(failures) * 1_000_000
      ensures ok ==> failures < |tries| && !capture.eos && !capture.error
      ensures ok <==> FirstPlaying(tries).Some?
      ensures ok ==> FirstPlaying(tries) == Some(failures) && clock == old(clock) + RetryUs(tries, failures)
      ensures tries != [] && G.Plays(tries[0].outcome) ==> ok && clock == old(clock)
      ensures capture.clockIsMonotonic == old(capture.clockIsMonotonic)
      ensures !ok ==> capture.live == {} || (tries == [] && capture.live == old(capture.live))
    {
      hide FirstPlaying, RetryUs, RetrySeconds, RetryBackoff, G.GstCapture.Valid, G.Plays;
      var backoff := BACKOFF_MIN;
      failures := 0;
      assert tries[0..] == tries;
      NothingRetried(tries);
      while failures < |tries|
        invariant failures <= |tries| && capture.Valid() && old(capture.released) <= capture.released
        invariant backoff == RetryBackoff(failures)
        invariant FirstPlaying(tries) == Later(FirstPlaying(tries[failures..]), failures)
        invariant clock == old(clock) + RetryUs(tries, failures)
        invariant clock >= old(clock) + RetrySeconds(failures) * SECOND
        invariant failures == 0 ==> capture.live == old(capture.live)
        invariant failures > 0 ==> capture.live == {} && !G.Plays(tries[0].outcome)
        invariant failures == 0 ==> clock == old(clock)
        invariant capture.clockIsMonotonic == old(capture.clockIsMonotonic)
      {
        var attempt := tries[failures];
        RetriedOnce(tries, failures);
        ok := capture.Open(attempt.outcome);
        if ok {
          PlayingHere(tries, failures);
          return;
        }
        PlayingLater(tries, failures);
        if attempt.stops {
          clock := clock + attempt.overshoot;
          return;
        }
        clock := clock + backoff * SECOND + attempt.overshoot;
        backoff := Min(2 * backoff, BACKOFF_MAX);
        failures := failures + 1;
      }
      ok := false;
    }

    /** Number, send and count a heartbeat. */
    method Beat(now: nat, e: Pass) returns (m: Message)
      requires udp != null && Wired() && Publishing([]) && now <= clock
      requires heartbeatPeriodUs > 0 && now - lastPublishUs >= heartbeatPeriodUs
      modifies this`frameId, this`lastPublishUs, this`heartbeats, this`clock, udp
      ensures Publishing([m]) && m.heartbeat && lastPublishUs == now && clock >= old(clock)
      ensures HasHeader(m, cfg.cameraId, domain, udp.realtimeOffset, now, clock, frameId, lastW, lastH)
      ensures CountBeats(udp.sent) == old(CountBeats(udp.sent)) + 1
      ensures CountEntries(udp.sent) == old(CountEntries(udp.sent))
      ensures heartbeats == old(heartbeats) + 1
    {
      hide UdpPublisher.Valid, PublishState, AllGood, CountBeats, CountEntries, CaptureRealtime;
      frameId := frameId + 1;
      clock := clock + e.toBeat;
      m := udp.SendHeartbeat(now, clock, frameId, lastW, lastH, e.beatBytes, e.beatTaken);
      OneMore(cfg, domain, trace, startUs, heartbeatPeriodUs, old(udp.sent), old(frameId), lastPublishUs, now, m);
      lastPublishUs := now;
      heartbeats := heartbeats + 1;
    }

    /** A heartbeat, unless something was published less than a period ago. */
    method MaybeHeartbeat(now: nat, e: Pass, ghost pending: seq<Message>) returns (ghost after: seq<Message>)
      requires Wired() && Publishing(pending) && Accounted(0)
      requires lastPublishUs <= now <= clock && (pending != [] ==> lastPublishUs == now)
      modifies this`frameId, this`lastPublishUs, this`heartbeats, this`clock, udp
      ensures Publishing(after) && Accounted(0) && clock >= old(clock)
      ensures after == pending || (pending == [] && udp != null && |after| == 1 && after[0].heartbeat)
      ensures udp != null && heartbeatPeriodUs > 0 && after == [] ==> now - lastPublishUs < heartbeatPeriodUs
      ensures lastPublishUs <= now && (after != [] ==> lastPublishUs == now)
    {
      after := pending;
      if udp == null || heartbeatPeriodUs == 0 {
        return;
      }
      var since: nat := now - lastPublishUs;
      if since < heartbeatPeriodUs {
        return;
      }
      var m := Beat(now, e);
      after := [m];
    }

    /** The live counters, which start again from zero. */
    method TakeWindow() returns (ghost w: Window)
      requires detector.Valid()
      modifies this`framesIn, this`framesDetected, this`framesSkipped, this`heartbeats, this`detectMsSum,
               detector`stats, detector`taken
      ensures detector.Valid() && detector.taken == |detector.seen|
      ensures w == Window(old(framesIn), old(framesDetected), old(framesSkipped), old(heartbeats), old(detector.stats),
                          detector.taken)
      ensures w.ds == TallyOf(detector.seen[old(detector.taken)..])
      ensures framesIn == framesDetected == framesSkipped == heartbeats == 0
    {
      var ds := detector.TakeStats();
      w := Window(framesIn, framesDetected, framesSkipped, heartbeats, ds, detector.taken);
      framesIn, framesDetected, framesSkipped, heartbeats := 0, 0, 0, 0;
      detectMsSum := 0.0;
    }

    /** One statistics line, when its interval has passed. */
    method LogStats(now: nat, ghost frames: nat)
      requires Reporting() && Counting(frames, frames) && Accounted(0) && lastStatsUs <= now
      modifies this`framesIn, this`framesDetected, this`framesSkipped, this`heartbeats, this`detectMsSum,
               this`lastStatsUs, this`printed, detector`stats, detector`taken
      ensures Reporting() && Counting(frames, frames) && Accounted(0) && lastStatsUs <= now
      ensures |printed| == |old(printed)| +
                if statsIntervalSec > 0 && now - old(lastStatsUs) >= statsIntervalSec * 1_000_000 then 1 else 0
      ensures lastStatsUs == if |printed| > |old(printed)| then now else old(lastStatsUs)
    {
      hide Detector.Valid, Slices, SumOf, UpTo, AllBalanced, TallyOf, CountBeats, CountEntries;
      if statsIntervalSec <= 0 {
        return;
      }
      var interval := statsIntervalSec * SECOND;
      var since: nat := now - lastStatsUs;
      if since < interval {
        return;
      }
      ghost var w := TakeWindow();
      SumsSnoc(printed, w);
      BalancedSnoc(printed, w);
      SlicesSnoc(printed, detector.seen, w);
      printed := printed + [w];
      lastStatsUs := now;
    }

    method Inspect(frame: G.Frame, e: Pass) returns (out: seq<Detection>)
      requires Wired() && Reporting() && Accounted(0)
      modifies detector
      ensures Reporting() && Accounted(|out|)
      ensures forall i :: 0 <= i < |out| ==> WithinGates(cfg, out[i])
      ensures out == (if e.empty then [] else AcceptedOf(Verdicts(cfg, e.markers)))
      ensures detector.seen == old(detector.seen) + (if e.empty then [] else Verdicts(cfg, e.markers))
      ensures detector.sizes == old(detector.sizes) + (if e.empty then [] else [Size(frame.width, frame.height)])
    {
      hide Detector.Valid, UdpPublisher.Valid, WithinGates, AcceptedOf, TallyOf, CountBeats, CountEntries, SumOf,
        Slices, Verdicts;
      DetectedWithinGates(cfg, e.markers);
      SlicesGrow(printed, detector.seen, Verdicts(cfg, e.markers));
      AcceptedGrow(detector.seen, Verdicts(cfg, e.markers));
      out := detector.Detect(Size(frame.width, frame.height), e.empty, e.markers, e.rectified);
    }

    /** Rate limit: a frame goes to the detector when a period has passed since the
        last one that did, and is skipped otherwise. */
    method Due(now: nat, ghost frames: nat) returns (due: bool)
      requires Counting(frames + 1, frames) && Paced(detectTimes, detectPeriodUs, lastDetectUs) && lastDetectUs <= now
      modifies this`framesDetected, this`framesSkipped, this`lastDetectUs, this`detectTimes
      ensures Counting(frames + 1, frames + 1)
      ensures Paced(detectTimes, detectPeriodUs, lastDetectUs) && lastDetectUs <= now
      ensures due <==> detectPeriodUs == 0 || now - old(lastDetectUs) >= detectPeriodUs
      ensures detectTimes == old(detectTimes) + if due then [now] else []
      ensures lastDetectUs == if due then now else old(lastDetectUs)
    {
      var since: nat := now - lastDetectUs;
      due := detectPeriodUs == 0 || since >= detectPeriodUs;
      if due {
        PacedSnoc(detectTimes, detectPeriodUs, lastDetectUs, now);
        lastDetectUs, detectTimes := now, detectTimes + [now];
        framesDetected := framesDetected + 1;
      } else {
        framesSkipped := framesSkipped + 1;
      }
    }

    /** Number and send the detections of a frame. */
    method Publish(frame: G.Frame, now: nat, out: seq<Detection>, e: Pass) returns (ghost pending: seq<Message>)
      requires Wired() && Publishing([]) && now == clock && out != []
      requires frame.captureUs <= now + G.FUTURE_SLACK_US && lastW == frame.width && lastH == frame.height
      requires forall i :: 0 <= i < |out| ==> WithinGates(cfg, out[i])
      modifies this`frameId, this`lastPublishUs, this`clock, udp
      ensures Publishing(pending) && lastPublishUs == now && clock >= old(clock)
      ensures Outgoing(cfg, udp != null, pending, out, frame, now + e.toPublish)
      ensures udp != null ==>
        |pending| == 1 && !pending[0].heartbeat && pending[0].frameId == frameId == old(frameId) + 1
      ensures udp != null ==> CountBeats(udp.sent) == old(CountBeats(udp.sent))
      ensures udp != null ==> CountEntries(udp.sent) == old(CountEntries(udp.sent)) + |out|
    {
      hide UdpPublisher.Valid, PublishState, AllGood, CountBeats, CountEntries, CaptureRealtime, IsWireOf,
        GoodMessage;
      pending := [];
      frameId := frameId + 1;
      if udp != null {
        clock := clock + e.toPublish;
        var m := udp.Send(frame.captureUs, clock, frameId, lastW, lastH, out, e.detectMs, e.bytes, e.taken);
        EntriesAreGood(cfg, domain, m, out);
        OneMore(cfg, domain, trace, startUs, heartbeatPeriodUs, old(udp.sent), old(frameId), old(lastPublishUs),
                now, m);
        pending := [m];
      }
      lastPublishUs := now;
    }

    /** The detector's turn, and its detections if there are any. */
    method DetectFrame(frame: G.Frame, now: nat, e: Pass) returns (ghost sent: seq<Message>)
      requires Wired() && Reporting() && Accounted(0) && Publishing([]) && lastPublishUs <= now == clock
      requires frame.captureUs <= now + G.FUTURE_SLACK_US && lastW == frame.width && lastH == frame.height
      modifies this`frameId, this`lastPublishUs, this`clock, this`detectMsSum, udp, detector
      ensures Reporting() && Accounted(0) && Publishing(sent) && lastPublishUs <= now && clock >= old(clock)
      ensures sent != [] ==> udp != null && lastPublishUs == now && !sent[0].heartbeat
      ensures var out := if e.empty then [] else AcceptedOf(Verdicts(cfg, e.markers));
              Outgoing(cfg, udp != null, sent, out, frame, now + e.toPublish)
      ensures detector.seen == old(detector.seen) + (if e.empty then [] else Verdicts(cfg, e.markers))
      ensures detector.sizes == old(detector.sizes) + (if e.empty then [] else [Size(frame.width, frame.height)])
    {
      hide Detector.Valid, UdpPublisher.Valid, StreamWorker.Publishing, StreamWorker.Reporting, TallyOf, CountBeats,
        CountEntries, SumOf, Carries, AcceptedOf, Verdicts;
      detectMsSum := detectMsSum + e.detectMs;
      sent := [];
      var out := Inspect(frame, e);
      if out != [] {
        sent := Publish(frame, now, out, e);
      }
    }

    /** Detect and publish when due; a heartbeat otherwise, if one is due. */
    method Emit(frame: G.Frame, now: nat, e: Pass, due: bool) returns (ghost sent: seq<Message>)
      requires Wired() && Reporting() && Accounted(0) && Publishing([]) && lastPublishUs <= now == clock
      requires frame.captureUs <= now + G.FUTURE_SLACK_US && lastW == frame.width && lastH == frame.height
      modifies this`frameId, this`lastPublishUs, this`heartbeats, this`clock, this`detectMsSum, udp, detector
      ensures Reporting() && Accounted(0) && Publishing(sent) && lastPublishUs <= now && clock >= old(clock)
      ensures udp != null && heartbeatPeriodUs > 0 && sent == [] ==> now - lastPublishUs < heartbeatPeriodUs
      ensures sent != [] ==> udp != null && lastPublishUs == now
      ensures var out := if due && !e.empty then AcceptedOf(Verdicts(cfg, e.markers)) else [];
              Outgoing(cfg, udp != null, sent, out, frame, now + e.toPublish)
      ensures detector.seen == old(detector.seen) + (if due && !e.empty then Verdicts(cfg, e.markers) else [])
      ensures detector.sizes ==
        old(detector.sizes) + if due && !e.empty then [Size(frame.width, frame.height)] else []
    {
      hide *;
      ghost var out := if due && !e.empty then AcceptedOf(Verdicts(cfg, e.markers)) else [];
      ghost var pending: seq<Message> := [];
      NothingOutgoing(cfg, udp != null, frame, now + e.toPublish);
      if due {
        pending := DetectFrame(frame, now, e);
      }
      sent := MaybeHeartbeat(now, e, pending);
      MaybeBeaten(cfg, udp != null, pending, sent, out, frame, now + e.toPublish);
    }

    /** Everything a frame causes, short of recording the iteration. */
    method Handle(frame: G.Frame, now: nat, e: Pass) returns (ghost sent: seq<Message>, due: bool)
      requires Steady() && lastPublishUs <= now == clock && lastDetectUs <= now
      requires frame.captureUs <= now + G.FUTURE_SLACK_US
      modifies this`frameId, this`lastW, this`lastH, this`lastPublishUs, this`lastDetectUs,
               this`framesIn, this`framesDetected, this`framesSkipped, this`heartbeats, this`detectMsSum, this`clock,
               this`detectTimes, udp, detector
      ensures Reporting() && Accounted(0) && Publishing(sent) && lastPublishUs <= now && clock >= old(clock)
      ensures Counting(|FrameTimes(trace)| + 1, |FrameTimes(trace)| + 1)
      ensures lastW == frame.width && lastH == frame.height
      ensures Paced(detectTimes, detectPeriodUs, lastDetectUs)
      ensures udp != null && heartbeatPeriodUs > 0 && sent == [] ==> now - lastPublishUs < heartbeatPeriodUs
      ensures sent != [] ==> udp != null && lastPublishUs == now
      ensures due <==> detectPeriodUs == 0 || now - old(lastDetectUs) >= detectPeriodUs
      ensures lastDetectUs == if due then now else old(lastDetectUs)
      ensures var out := if due && !e.empty then AcceptedOf(Verdicts(cfg, e.markers)) else [];
              Outgoing(cfg, udp != null, sent, out, frame, now + e.toPublish)
      ensures detector.seen == old(detector.seen) + (if due && !e.empty then Verdicts(cfg, e.markers) else [])
      ensures detector.sizes ==
        old(detector.sizes) + if due && !e.empty then [Size(frame.width, frame.height)] else []
    {
      hide Detector.Valid, UdpPublisher.Valid, StreamWorker.Publishing, StreamWorker.Reporting, TallyOf, CountBeats,
        CountEntries, SumOf, Paced, AllBalanced, Outgoing, AcceptedOf, Verdicts, StreamWorker.Accounted,
        StreamWorker.Wired, FrameTimes;
      framesIn := framesIn + 1;
      lastW, lastH := frame.width, frame.height;
      due := Due(now, |FrameTimes(trace)|);
      sent := Emit(frame, now, e, due);
    }

    /** The iteration is over: it goes into the trace, with its inputs. */
    ghost method Record(it: Iteration, e: Pass)
      requires Publishing(it.sent) && LastNow(trace, startUs) <= it.now
      requires it.sent != [] ==> it.gotFrame && lastPublishUs == it.now
      requires udp != null && it.gotFrame && it.sent == [] && heartbeatPeriodUs > 0 ==>
                 it.now - lastPublishUs < heartbeatPeriodUs
      requires Logging() && |trace| == |passLog|
      requires Follows(cfg, udp != null, detectPeriodUs, firstUs, trace, passLog, it, e)
      requires lastDetectUs == if it.looked then it.now else LastLook(trace)
      requires AtTimes(rebuildLog) == RebuildTimes(trace) + if it.outcome.Rebuilt? then [it.now] else []
      requires detector.seen == SeenOf(cfg, trace, passLog) + VerdictsIn(cfg, it, e)
      requires detector.sizes == SizesOf(trace, passLog) + SizeIn(it, e)
      modifies this`trace, this`passLog
      ensures trace == old(trace) + [it] && passLog == old(passLog) + [e]
      ensures Publishing([]) && Logging() && Tracking()
      ensures LastNow(trace, startUs) == it.now
      ensures |FrameTimes(trace)| == |old(FrameTimes(trace))| + if it.gotFrame then 1 else 0
    {
      hide UdpPublisher.Valid, AllGood, PublishState, Logged, Follows, SeenOf, SizesOf, VerdictsIn, SizeIn, AtTimes,
        FrameTimes, LastNow, LastLook, RebuildTimes;
      if udp != null {
        IterationEnds(trace, startUs, heartbeatPeriodUs, udp.sent, frameId, lastPublishUs, it);
      }
      TraceSnoc(trace, it, startUs);
      LoggedSnoc(cfg, udp != null, detectPeriodUs, firstUs, trace, passLog, it, e);
      SeenSnoc(cfg, trace, passLog, it, e);
      trace, passLog := trace + [it], passLog + [e];
    }

    /** A frame's iteration goes into the log. */
    ghost method RecordFrame(frame: G.Frame, from: nat, now: nat, e: Pass, sent: seq<Message>, due: bool)
      requires Publishing(sent) && LastNow(trace, startUs) <= now && Logging() && |trace| == |passLog|
      requires sent != [] ==> lastPublishUs == now
      requires udp != null && heartbeatPeriodUs > 0 && sent == [] ==> now - lastPublishUs < heartbeatPeriodUs
      requires FrameRead(trace, passLog, firstUs, frame, e, from, now)
      requires due <==> detectPeriodUs == 0 || now - LastLook(trace) >= detectPeriodUs
      requires lastDetectUs == if due then now else LastLook(trace)
      requires var out := if due && !e.empty then AcceptedOf(Verdicts(cfg, e.markers)) else [];
               Outgoing(cfg, udp != null, sent, out, frame, now + e.toPublish)
      requires AtTimes(rebuildLog) == RebuildTimes(trace)
      requires detector.seen == SeenOf(cfg, trace, passLog) + (if due && !e.empty then Verdicts(cfg, e.markers) else [])
      requires detector.sizes ==
        SizesOf(trace, passLog) + if due && !e.empty then [Size(frame.width, frame.height)] else []
      modifies this`trace, this`passLog
      ensures OneLater(old(trace), old(passLog), trace, passLog, e, now)
      ensures Publishing([]) && Logging() && Tracking()
      ensures LastNow(trace, startUs) == IdleSince(trace, firstUs) == now
      ensures |FrameTimes(trace)| == |old(FrameTimes(trace))| + 1
      ensures FlagsAt(trace, passLog) == FlagsAfterPull(FlagsAt(old(trace), old(passLog)), e.pull)
      ensures LastOutcome(trace) == Served
    {
      hide StreamWorker.Publishing, StreamWorker.Logging, StreamWorker.Tracking, FrameTimes, Outgoing, G.StampUs,
        G.Delivers, SeenOf, SizesOf, AtTimes, RebuildTimes, AcceptedOf, Verdicts, MonotonicSeen, FlagsAt,
        FlagsAfterPull, Follows;
      ghost var flags := FlagsAfterPull(FlagsAt(trace, passLog), e.pull);
      ghost var it := Iteration(from, true, now, sent, due, flags != Flags(false, false),
                                flags.ended && cfg.exitOnEos, Served);
      FrameFollows(cfg, udp != null, detectPeriodUs, firstUs, trace, passLog, it, e, frame);
      DeliversSampled(e.pull);
      FlagsSnoc(trace, passLog, it, e);
      NoRebuildTimes(trace);
      Record(it, e);
    }

    /** The iteration of a frame. */
    method OnFrame(frame: G.Frame, now: nat, e: Pass, ghost from: nat)
      requires Steady() && Logging() && Tracking() && LastNow(trace, startUs) <= now == clock
      requires lastPublishUs <= now && lastDetectUs <= now && lastStatsUs <= now
      requires FrameRead(trace, passLog, firstUs, frame, e, from, now)
      modifies this`frameId, this`lastW, this`lastH, this`lastPublishUs, this`lastDetectUs, this`lastStatsUs,
               this`framesIn, this`framesDetected, this`framesSkipped, this`heartbeats, this`detectMsSum, this`clock,
               this`trace, this`passLog, this`detectTimes, this`printed, udp, detector
      ensures Steady() && Logging() && Tracking() && clock >= old(clock)
      ensures lastPublishUs <= now && lastDetectUs <= now && lastStatsUs <= now
      ensures OneLater(old(trace), old(passLog), trace, passLog, e, now)
      ensures LastNow(trace, startUs) == IdleSince(trace, firstUs) == now
      ensures FlagsAt(trace, passLog) == FlagsAfterPull(FlagsAt(old(trace), old(passLog)), e.pull)
      ensures LastOutcome(trace) == Served
    {
      hide *;
      SteadyMeans();
      TrackingMeans();
      FrameReadInTime(trace, passLog, firstUs, frame, e, from, now);
      ghost var sent, due := Handle(frame, now, e);
      RecordFrame(frame, from, now, e, sent, due);
      LogStats(now, |FrameTimes(trace)|);
      SteadyAgain();
    }

    lemma TrackingMeans()
      requires Tracking()
      ensures |trace| == |passLog| && lastDetectUs == LastLook(trace) && AtTimes(rebuildLog) == RebuildTimes(trace)
      ensures detector.seen == SeenOf(cfg, trace, passLog) && detector.sizes == SizesOf(trace, passLog)
    {
    }

    lemma SteadyMeans()
      requires Steady()
      ensures Wired() && Reporting() && Publishing([]) && Accounted(0)
      ensures Counting(|FrameTimes(trace)|, |FrameTimes(trace)|) && Paced(detectTimes, detectPeriodUs, lastDetectUs)
    {
    }

    lemma SteadyAgain()
      requires Wired() && Reporting() && Publishing([]) && Accounted(0)
      requires Counting(|FrameTimes(trace)|, |FrameTimes(trace)|) && Paced(detectTimes, detectPeriodUs, lastDetectUs)
      ensures Steady()
    {
    }

    /** The wait before reopening: none after a quiet spell, otherwise doubling. */
    method BackOff(now: nat, e: Pass) returns (stopped: bool)
      requires Rebuilding() && lastRebuildUs + rebuildBackoffS * SECOND <= now <= clock
      modifies this`lastRebuildUs, this`rebuildBackoffS, this`rebuilds, this`clock, this`rebuildLog
      ensures Rebuilding() && clock >= old(clock) && lastRebuildUs == now
      ensures !stopped ==> lastRebuildUs + rebuildBackoffS * SECOND <= clock
      ensures rebuildLog == old(rebuildLog) + [Rebuild(now, rebuildBackoffS)]
      ensures rebuildBackoffS == NextBackoff(now - old(lastRebuildUs), old(rebuildBackoffS))
      ensures stopped <==> now - old(lastRebuildUs) < RAPID_WINDOW && e.waitStops
      ensures !stopped && now - old(lastRebuildUs) < RAPID_WINDOW ==>
        clock == old(clock) + e.overshoot + rebuildBackoffS * 1_000_000
      ensures now - old(lastRebuildUs) >= RAPID_WINDOW ==> clock == old(clock)
    {
      rebuilds := rebuilds + 1;
      var since: nat := now - lastRebuildUs;
      ghost var r := Rebuild(now, NextBackoff(since, rebuildBackoffS));
      RebuildsSnoc(rebuildLog, rebuildStart, r);
      rebuildLog := rebuildLog + [r];
      lastRebuildUs := now;
      stopped := false;
      if since < RAPID_WINDOW {
        rebuildBackoffS := Min(if rebuildBackoffS > 0 then 2 * rebuildBackoffS else BACKOFF_MIN, BACKOFF_MAX);
        stopped := e.waitStops;
        clock := clock + e.overshoot + if stopped then 0 else rebuildBackoffS * SECOND;
      } else {
        rebuildBackoffS := 0;
      }
    }

    /** Tear down, wait, reopen; false when the stop flag ends it. */
    method Reopen(now: nat, e: Pass) returns (ok: bool)
      requires capture.Valid() && Rebuilding() && lastRebuildUs + rebuildBackoffS * SECOND <= now <= clock
      modifies this`lastRebuildUs, this`rebuildBackoffS, this`rebuilds, this`clock, this`rebuildLog, capture
      ensures capture.Valid() && Rebuilding() && clock >= old(clock) && lastRebuildUs == now
      ensures rebuildLog == old(rebuildLog) + [Rebuild(now, rebuildBackoffS)]
      ensures ok ==> lastRebuildUs + rebuildBackoffS * SECOND <= clock
      ensures if ok then capture.pipeline.Some? && !capture.eos && !capture.error else capture.live == {}
      ensures capture.clockIsMonotonic == old(capture.clockIsMonotonic)
      ensures ok <==> Resumes(now - old(lastRebuildUs), e)
      ensures ok ==>
        var waited := if now - old(lastRebuildUs) < RAPID_WINDOW then e.overshoot + rebuildBackoffS * SECOND else 0;
        clock == old(clock) + waited + RetryUs(e.opens, FirstPlaying(e.opens).value) + e.toResume
    {
      capture.Close();
      var stopped := BackOff(now, e);
      if stopped {
        return false;
      }
      var playing, _ := OpenCapture(e.opens);
      if playing {
        clock := clock + e.toResume;
      }
      ok := playing;
    }

    /** The decision for an iteration without a frame: stop at the end of a stream
        that asks for it, rebuild a failing pipeline, or just report. */
    method Decide(now: nat, lastFrameUs: nat, e: Pass)
      returns (ghost outcome: Outcome, stopped: bool, lastFrame: nat)
      requires Steady() && Rebuilding() && capture.Valid() && capture.pipeline.Some? && lastFrameUs <= now == clock
      requires lastStatsUs <= now && lastRebuildUs + rebuildBackoffS * SECOND <= now
      modifies this`lastStatsUs, this`framesIn, this`framesDetected, this`framesSkipped, this`heartbeats,
               this`detectMsSum, this`printed, this`lastRebuildUs, this`rebuildBackoffS, this`rebuilds, this`clock,
               this`rebuildLog, capture, detector`stats, detector`taken
      ensures Steady() && Rebuilding() && capture.Valid() && clock >= old(clock)
      ensures lastStatsUs <= now && lastRebuildUs <= now
      ensures capture.clockIsMonotonic == old(capture.clockIsMonotonic)
      ensures !stopped ==> lastRebuildUs + rebuildBackoffS * SECOND <= clock && capture.pipeline.Some?
      ensures outcome == IdleOutcome(old(capture.eos) && cfg.exitOnEos, old(capture.eos) || old(capture.error),
                                     now - lastFrameUs, cfg.watchdogSec, clock)
      ensures outcome.Rebuilt? <==>
        && !(old(capture.eos) && cfg.exitOnEos)
        && (old(capture.eos) || old(capture.error) || (now - lastFrameUs) as real > cfg.watchdogSec * 1000000.0)
      ensures outcome.Rebuilt? || unchanged(this`rebuildLog, capture)
      ensures outcome.Rebuilt? ==> rebuildLog == old(rebuildLog) + [Rebuild(now, rebuildBackoffS)]
      ensures outcome.Rebuilt? ==> if stopped then capture.live == {} else !capture.eos && !capture.error
      ensures stopped <==> Halts(outcome, now - old(lastRebuildUs), e)
      ensures !stopped ==> lastFrame == if outcome.Rebuilt? then clock else lastFrameUs
    {
      hide Detector.Valid, UdpPublisher.Valid, G.GstCapture.Valid, StreamWorker.Publishing, StreamWorker.Reporting,
        StreamWorker.Accounted, StreamWorker.Counting, StreamWorker.Rebuilding, Paced, FrameTimes, Resumes;
      SecondsMean(now - lastFrameUs, cfg.watchdogSec);
      outcome, stopped, lastFrame := Waited, false, lastFrameUs;
      if capture.eos && cfg.exitOnEos {
        return Ended, true, lastFrameUs;
      }
      var wedged := Seconds(now - lastFrameUs) > cfg.watchdogSec;
      if wedged || capture.eos || capture.error {
        var ok := Reopen(now, e);
        outcome, stopped := Rebuilt(clock), !ok;
        lastFrame := clock;
      } else {
        LogStats(now, |FrameTimes(trace)|);
      }
    }

    /** An iteration without a frame goes into the log. */
    ghost method RecordIdle(from: nat, now: nat, e: Pass, flagged: bool, ending: bool, outcome: Outcome,
                            before: seq<Rebuild>, resumed: nat)
      requires Steady() && LastNow(trace, startUs) <= now <= resumed && Logging() && |trace| == |passLog|
      requires Begins(trace, firstUs, from) && now == from + e.toStamp + e.toArrival + e.toNow && !G.Delivers(e.pull)
      requires var flags := FlagsAfterPull(FlagsAt(trace, passLog), e.pull);
               flagged == (flags != Flags(false, false)) && ending == (flags.ended && cfg.exitOnEos)
      requires outcome == IdleOutcome(ending, flagged, now - IdleSince(trace, firstUs), cfg.watchdogSec, resumed)
      requires lastDetectUs == LastLook(trace) && AtTimes(before) == RebuildTimes(trace)
      requires if outcome.Rebuilt? then rebuildLog == before + [Rebuild(now, rebuildBackoffS)] else rebuildLog == before
      requires detector.seen == SeenOf(cfg, trace, passLog) && detector.sizes == SizesOf(trace, passLog)
      modifies this`trace, this`passLog
      ensures OneLater(old(trace), old(passLog), trace, passLog, e, now)
      ensures Steady() && Logging() && Tracking() && LastNow(trace, startUs) == now
      ensures IdleSince(trace, firstUs) == if outcome.Rebuilt? then resumed else old(IdleSince(trace, firstUs))
      ensures FlagsAt(trace, passLog) == if outcome.Rebuilt? then Flags(false, false)
                                         else FlagsAfterPull(FlagsAt(old(trace), old(passLog)), e.pull)
      ensures LastOutcome(trace) == outcome
    {
      hide StreamWorker.Publishing, StreamWorker.Logging, StreamWorker.Tracking, FrameTimes, G.StampUs, G.Delivers,
        SeenOf, SizesOf, AtTimes, RebuildTimes, AcceptedOf, Verdicts, MonotonicSeen, FlagsAt, FlagsAfterPull, Follows,
        StreamWorker.Steady, StreamWorker.Counting, StreamWorker.Accounted, StreamWorker.Reporting, Paced;
      SteadyMeans();
      ghost var it := Iteration(from, false, now, [], false, flagged, ending, outcome);
      IdleFollows(cfg, udp != null, detectPeriodUs, firstUs, trace, passLog, it, e, resumed);
      FlagsSnoc(trace, passLog, it, e);
      AtTimesSnoc(before, Rebuild(now, rebuildBackoffS));
      assert (trace + [it])[..|trace|] == trace;
      Record(it, e);
      SteadyAgain();
    }

    /** The iteration without a frame. `lastFrame` is the new start of the idle time:
        a rebuild starts it afresh. */
    method OnIdle(now: nat, lastFrameUs: nat, e: Pass, ghost from: nat) returns (stopped: bool, lastFrame: nat)
      requires Steady() && Rebuilding() && Logging() && Tracking() && capture.Valid() && capture.pipeline.Some?
      requires LastNow(trace, startUs) <= now == clock && lastStatsUs <= now
      requires lastRebuildUs + rebuildBackoffS * SECOND <= now
      requires Begins(trace, firstUs, from) && now == from + e.toStamp + e.toArrival + e.toNow
      requires !G.Delivers(e.pull) && lastFrameUs == IdleSince(trace, firstUs) <= now
      requires |trace| == |passLog|
      requires Flags(capture.eos, capture.error) == FlagsAfterPull(FlagsAt(trace, passLog), e.pull)
      modifies this`lastStatsUs, this`framesIn, this`framesDetected, this`framesSkipped, this`heartbeats,
               this`detectMsSum, this`printed, this`lastRebuildUs, this`rebuildBackoffS, this`rebuilds, this`clock,
               this`rebuildLog, this`trace, this`passLog, capture, detector`stats, detector`taken
      ensures Steady() && Rebuilding() && Logging() && Tracking() && capture.Valid() && clock >= old(clock)
      ensures LastNow(trace, startUs) == now && lastStatsUs <= now && lastRebuildUs <= now
      ensures OneLater(old(trace), old(passLog), trace, passLog, e, now)
      ensures capture.clockIsMonotonic == old(capture.clockIsMonotonic)
      ensures !stopped ==> lastFrame == IdleSince(trace, firstUs) <= clock
      ensures !stopped ==> lastRebuildUs + rebuildBackoffS * SECOND <= clock && capture.pipeline.Some?
      ensures !stopped ==> |trace| == |passLog| && Flags(capture.eos, capture.error) == FlagsAt(trace, passLog)
      ensures stopped <==> Halts(LastOutcome(trace), now - old(lastRebuildUs), e)
    {
      hide *;
      TrackingMeans();
      ghost var flagged, ending := capture.eos || capture.error, capture.eos && cfg.exitOnEos;
      ghost var before, outcome := rebuildLog, Waited;
      outcome, stopped, lastFrame := Decide(now, lastFrameUs, e);
      RecordIdle(from, now, e, flagged, ending, outcome, before, clock);
      Grown(old(trace), old(passLog), trace, passLog, e, now);
    }

    /** One read, with the clock readings around it; `now` is taken after it. */
    method ReadFrame(e: Pass) returns (got: bool, frame: G.Frame, now: nat)
      requires capture.Valid() && capture.pipeline.Some?
      modifies this`clock, capture
      ensures capture.Valid() && capture.pipeline.Some?
      ensures now == clock == old(clock) + e.toStamp + e.toArrival + e.toNow
      ensures got <==> G.Delivers(e.pull)
      ensures capture.clockIsMonotonic ==
                if got then G.MonotonicAfter(old(capture.clockIsMonotonic), e.pull) else old(capture.clockIsMonotonic)
      ensures Flags(capture.eos, capture.error) == FlagsAfterPull(Flags(old(capture.eos), old(capture.error)), e.pull)
      ensures got ==>
        && e.pull.Sampled? && frame.width == e.pull.w && frame.height == e.pull.h
        && frame.captureUs == G.StampUs(e.pull, capture.clockIsMonotonic, old(clock) + e.toStamp,
                                        old(clock) + e.toStamp + e.toArrival)
    {
      hide G.GstCapture.Valid, G.StampUs, G.Delivers;
      DeliversSampled(e.pull);
      clock := clock + e.toStamp;
      var stampAt := clock;
      clock := clock + e.toArrival;
      got, frame := capture.Read(e.pull, stampAt, clock);
      clock := clock + e.toNow;
      now := clock;
    }

    lemma HeadMeans()
      requires Head()
      ensures Steady() && Rebuilding() && Logging() && Tracking() && Capturing()
      ensures capture.Valid() && capture.pipeline.Some? && |trace| == |passLog|
      ensures Flags(capture.eos, capture.error) == FlagsAt(trace, passLog)
      ensures capture.clockIsMonotonic == MonotonicSeen(passLog)
      ensures LastNow(trace, startUs) <= clock && Begins(trace, firstUs, clock) && IdleSince(trace, firstUs) <= clock
      ensures lastPublishUs <= clock && lastDetectUs <= clock && lastStatsUs <= clock && lastRebuildUs <= clock
      ensures lastRebuildUs + rebuildBackoffS * SECOND <= clock
      ensures lastRebuildUs == LastRebuildAt(trace, rebuildStart)
    {
      LastRebuildAgrees(rebuildLog, trace, rebuildStart);
    }

    lemma HeadAgain(now: nat)
      requires Steady() && Rebuilding() && Logging() && Tracking() && capture.Valid() && capture.pipeline.Some?
      requires |trace| == |passLog| && Flags(capture.eos, capture.error) == FlagsAt(trace, passLog)
      requires capture.clockIsMonotonic == MonotonicSeen(passLog)
      requires LastNow(trace, startUs) == now <= clock && trace != []
      requires IdleSince(trace, firstUs) <= clock
      requires lastPublishUs <= clock && lastDetectUs <= clock && lastStatsUs <= clock && lastRebuildUs <= clock
      requires lastRebuildUs + rebuildBackoffS * SECOND <= clock
      ensures Head()
    {
    }

    lemma ServedGoesOn(outcome: Outcome, gap: int, e: Pass)
      requires outcome == Served
      ensures !Halts(outcome, gap, e)
    {
    }

    /** What follows the read. */
    method Answer(got: bool, frame: G.Frame, now: nat, lastFrameUs: nat, e: Pass, ghost from: nat)
      returns (stopped: bool, lastFrame: nat)
      requires Steady() && Rebuilding() && Logging() && Tracking() && capture.Valid() && capture.pipeline.Some?
      requires |trace| == |passLog| && LastNow(trace, startUs) <= now == clock
      requires lastPublishUs <= now && lastDetectUs <= now && lastStatsUs <= now && lastRebuildUs <= now
      requires lastRebuildUs + rebuildBackoffS * SECOND <= now && lastFrameUs == IdleSince(trace, firstUs) <= now
      requires Begins(trace, firstUs, from) && now == from + e.toStamp + e.toArrival + e.toNow
      requires got <==> G.Delivers(e.pull)
      requires got ==> FrameRead(trace, passLog, firstUs, frame, e, from, now)
      requires Flags(capture.eos, capture.error) == FlagsAfterPull(FlagsAt(trace, passLog), e.pull)
      requires capture.clockIsMonotonic == MonotonicSeen(passLog + [e])
      modifies this, capture, detector, udp
      ensures Steady() && Rebuilding() && Logging() && Tracking() && capture.Valid()
      ensures OneLater(old(trace), old(passLog), trace, passLog, e, now)
      ensures firstUs == old(firstUs) && rebuildStart == old(rebuildStart)
      ensures stopped <==> Halts(LastOutcome(trace), now - old(lastRebuildUs), e)
      ensures !stopped ==> Head() && lastFrame == IdleSince(trace, firstUs)
    {
      hide *;
      if got {
        OnFrame(frame, now, e, from);
        stopped, lastFrame := false, now;
        ServedGoesOn(LastOutcome(trace), now - lastRebuildUs, e);
      } else {
        stopped, lastFrame := OnIdle(now, lastFrameUs, e, from);
      }
      Grown(old(trace), old(passLog), trace, passLog, e, now);
      if !stopped {
        HeadAgain(now);
      }
    }

    /** One iteration of the loop: it adds one entry to the log, made of these inputs,
        and ends the run exactly at the end of a stream that is to stop there, or when
        a rebuild does not lead back to reading. */
    method Step(lastFrameUs: nat, e: Pass) returns (stopped: bool, lastFrame: nat)
      requires Head() && lastFrameUs == IdleSince(trace, firstUs) && GoesOn(trace, passLog, rebuildStart)
      modifies this, capture, detector, udp
      ensures Steady() && Rebuilding() && Logging() && Tracking() && capture.Valid()
      ensures exists now :: OneLater(old(trace), old(passLog), trace, passLog, e, now)
      ensures passLog == old(passLog) + [e] && firstUs == old(firstUs) && rebuildStart == old(rebuildStart)
      ensures if stopped then Halted(trace, passLog, rebuildStart) else GoesOn(trace, passLog, rebuildStart)
      ensures !stopped ==> Head() && lastFrame == IdleSince(trace, firstUs)
    {
      hide *;
      HeadMeans();
      MonotonicSnoc(passLog, e);
      ghost var from := clock;
      var got, frame, now := ReadFrame(e);
      if got {
        ItsFrame(trace, passLog, firstUs, frame, e, from, now);
      }
      stopped, lastFrame := Answer(got, frame, now, lastFrameUs, e, from);
      Grown(old(trace), old(passLog), trace, passLog, e, now);
      StepOn(old(trace), old(passLog), trace, passLog, e, now, rebuildStart, stopped);
    }

    /** The clock readings before the loop. */
    method Begin(toPublish: nat)
      requires Idle()
      modifies this`clock, this`lastStatsUs, this`lastPublishUs, this`startUs
      ensures Steady() && Logging() && Tracking() && capture.Valid() && capture.live == {}
      ensures trace == [] && passLog == [] && !capture.clockIsMonotonic
      ensures rebuildLog == [] && rebuilds == 0 && rebuildBackoffS == 0 && clock == old(clock) + toPublish
      ensures lastStatsUs <= clock && lastDetectUs <= clock && lastPublishUs == startUs == clock
    {
      hide Detector.Valid, UdpPublisher.Valid, G.GstCapture.Valid, StreamWorker.Accounted, StreamWorker.Reporting,
        StreamWorker.Counting, AllGood, PublishState, Follows;
      NothingYet(cfg, domain, clock + toPublish, heartbeatPeriodUs);
      lastStatsUs := clock;
      clock := clock + toPublish;
      lastPublishUs, startUs := clock, clock;
    }

    method BeginRebuilding(toRebuild: nat)
      requires rebuildLog == [] && rebuilds == 0 && rebuildBackoffS == 0
      modifies this`clock, this`lastRebuildUs, this`rebuildStart
      ensures Rebuilding() && lastRebuildUs == clock == old(clock) + toRebuild
    {
      clock := clock + toRebuild;
      lastRebuildUs, rebuildStart := clock, clock;
    }

    /** The loop is entered: this is where the idle time starts. */
    method Enter(toFirst: nat) returns (lastFrameUs: nat)
      requires Steady() && Rebuilding() && capture.Valid() && capture.pipeline.Some? && trace == [] && passLog == []
      requires !capture.eos && !capture.error && !capture.clockIsMonotonic && lastDetectUs == 0 && rebuildLog == []
      requires detector.seen == [] && detector.sizes == [] && startUs <= clock
      requires lastPublishUs <= clock && lastStatsUs <= clock
      requires lastRebuildUs + rebuildBackoffS * SECOND <= clock
      modifies this`clock, this`firstUs
      ensures Head() && Logging() && Tracking()
      ensures lastFrameUs == firstUs == IdleSince(trace, firstUs) == clock == old(clock) + toFirst
    {
      hide Detector.Valid, UdpPublisher.Valid, G.GstCapture.Valid, StreamWorker.Steady, StreamWorker.Rebuilding,
        Follows;
      clock := clock + toFirst;
      lastFrameUs, firstUs := clock, clock;
    }

    /** The run of a new worker, until the stop flag (or the end of the inputs) ends
        it, and a close. The log it leaves is made of the inputs it consumed: none when
        no pipeline ever plays, otherwise all of them, or those up to the first
        iteration that ends the run. */
    method Run(toPublish: nat, toRebuild: nat, opens: seq<OpenTry>, toFirst: nat, passes: seq<Pass>)
      requires Idle()
      modifies this, capture, detector, udp
      ensures Steady() && Rebuilding() && Logging() && Tracking() && capture.Valid() && capture.live == {}
      ensures passLog <= passes
      ensures FirstPlaying(opens).None? ==> passLog == []
      ensures FirstPlaying(opens).Some? ==>
        (passLog == passes && GoesOn(trace, passLog, rebuildStart)) || Halted(trace, passLog, rebuildStart)
      ensures FirstPlaying(opens).Some? ==>
        firstUs == old(clock) + toPublish + toRebuild + RetryUs(opens, FirstPlaying(opens).value) + toFirst
      ensures opens != [] && G.Plays(opens[0].outcome) ==>
                (passes != [] ==> passLog != []) && firstUs == old(clock) + toPublish + toRebuild + toFirst
    {
      hide *;
      Unstarted();
      Begin(toPublish);
      BeginRebuilding(toRebuild);
      var playing, _ := OpenCapture(opens);
      if !playing {
        return;
      }
      var lastFrameUs := Enter(toFirst);
      ghost var first := firstUs;
      NothingOn(rebuildStart);
      var stopped := false;
      var i := 0;
      while i < |passes| && !stopped
        invariant i <= |passes| && passLog == passes[..i]
        invariant firstUs == first
        invariant Steady() && Rebuilding() && Logging() && Tracking() && capture.Valid()
        invariant i == 0 ==> !stopped
        invariant if stopped then Halted(trace, passLog, rebuildStart) else GoesOn(trace, passLog, rebuildStart)
        invariant !stopped ==> Head() && lastFrameUs == IdleSince(trace, firstUs)
      {
        stopped, lastFrameUs := Step(lastFrameUs, passes[i]);
        i := i + 1;
      }
      capture.Close();
    }

    /** What the invariant of a run comes to: the ids on the wire are exactly 1..k,
        one datagram at most for each frame, all of them good; every detection the
        gates accepted and every heartbeat counted was sent; every printed line and
        the live counters have as many frames in as detected and skipped; and printed
        and live counters together count every frame and every verdict. */
    lemma RunMeans(c: Counter)
      requires Steady() && udp != null
      ensures udp.sent == Datagrams(trace) && Disciplined(trace, startUs, heartbeatPeriodUs)
      ensures forall i :: 0 <= i < |udp.sent| ==> udp.sent[i].frameId == i + 1 && GoodMessage(cfg, domain, udp.sent[i])
      ensures |udp.sent| <= |FrameTimes(trace)|
      ensures CountEntries(udp.sent) == |AcceptedOf(detector.seen)|
      ensures CountBeats(udp.sent) == SumOf(printed, Heartbeats) + heartbeats
      ensures framesIn == framesDetected + framesSkipped
      ensures forall i :: 0 <= i < |printed| ==>
        printed[i].framesIn == printed[i].framesDetected + printed[i].framesSkipped
      ensures |FrameTimes(trace)| == SumOf(printed, FramesIn) + framesIn
      ensures OfDetector(c) ==>
                SumOf(printed, c) + StatsReading(detector.stats, c) == StatsReading(TallyOf(detector.seen), c)
    {
      assert Datagrams(trace) + [] == Datagrams(trace);
      IdsAreConsecutive(trace, startUs, heartbeatPeriodUs);
      DatagramsNeedFrames(trace, startUs, heartbeatPeriodUs);
      EveryMarkerHasOneFate(detector.seen);
      forall i | 0 <= i < |printed|
        ensures printed[i].framesIn == printed[i].framesDetected + printed[i].framesSkipped
      {
        assert Balanced(printed[i]);
      }
      if OfDetector(c) {
        WindowsAddUp(printed, detector.seen, c);
      }
    }

    /** The watchdog over a whole run: the rebuilds logged are exactly the frameless
        iterations that do not end the stream and are flagged, or come more than the
        timeout after the latest frame or reopening. */
    lemma RebuildsAreWatched(i: nat)
      requires Logging() && Tracking() && i < |trace|
      ensures Watched(trace, firstUs, cfg.watchdogSec) && AtTimes(rebuildLog) == RebuildTimes(trace)
      ensures trace[i].outcome.Rebuilt? <==>
                && !G.Delivers(passLog[i].pull) && !trace[i].ending
                && (trace[i].flagged
                    || (trace[i].now - IdleSince(trace[..i], firstUs)) as real > cfg.watchdogSec * 1000000.0)
    {
      SecondsMean(trace[i].now - IdleSince(trace[..i], firstUs), cfg.watchdogSec);
      LoggedIsWatched(cfg, udp != null, detectPeriodUs, firstUs, trace, passLog);
      assert FollowsAt(cfg, udp != null, detectPeriodUs, firstUs, trace, passLog, i);
    }

    /** A run whose frames all have one size, without undistortion, initialises its
        detector once and solves with the intrinsics for that size. */
    lemma OneSizeRun(s: Size)
      requires Logging() && Tracking() && Steady() && OneSize(passLog, s) && !cfg.camera.undistort
      ensures AllAt(detector.sizes, s)
      ensures detector.sizes != [] ==> detector.history == [s] && detector.kSolve == Ideal(cfg.camera, s)
      ensures detector.sizes != [] ==>
        var camera := cfg.camera;
        Rescaled(camera, Intrinsics(camera.fx, camera.fy, camera.cx, camera.cy), detector.kSolve, s)
    {
      OneSizeLooked(cfg, udp != null, detectPeriodUs, firstUs, trace, passLog, s);
      if detector.sizes != [] {
        OneSizeIsRight(detector, s, 0.0, 0.0, 1.0);
      }
    }
  }

  // ----- starting a worker -----

  /** What becomes of the publisher's socket. */
  datatype SocketOutcome = Bound | NoDescriptor | AddressRejected

  datatype InitError = Refused(why: Check) | NoSocket | BadAddress

  /** Construction and init: a worker is refused for an unknown family or unset
      intrinsics first, then, with UDP on, for its socket. */
  method StartWorker(cfg: StreamConfig, udpCfg: UdpConfig, logCfg: LoggingConfig, domain: string, offset: int, now: nat,
                     socket: SocketOutcome) returns (r: Result<StreamWorker, InitError>)
    ensures r.Failure? <==> RefusalOf(cfg).Some? || (udpCfg.enabled && !socket.Bound?)
    ensures RefusalOf(cfg).Some? ==> r == Failure(Refused(RefusalOf(cfg).value))
    ensures r.Failure? && RefusalOf(cfg).None? ==> r.error == if socket.NoDescriptor? then NoSocket else BadAddress
    ensures r.Success? ==> fresh(r.value) && r.value.Idle() && r.value.cfg == cfg && r.value.domain == domain
    ensures r.Success? ==> (r.value.udp != null <==> udpCfg.enabled)
  {
    var refusal := RefusalOf(cfg);
    if refusal.Some? {
      return Failure(Refused(refusal.value));
    }
    if udpCfg.enabled {
      if socket.NoDescriptor? {
        return Failure(NoSocket);
      }
      if socket.AddressRejected? {
        return Failure(BadAddress);
      }
    }
    var w := new StreamWorker(cfg, udpCfg, logCfg, domain, offset, now);
    r := Success(w);
  }

  // ----- a stamp from the future -----

  /** A replayed file, one marker 1 m ahead, and a buffer stamped 5 ms past the clock. */
  const REPLAY := StreamConfig(
    "down", "appsink name=sink", 640, 480, 30, 3.0, 0.0, true,
    CameraConfig(500.0, 500.0, 320.0, 240.0, "pinhole", [0.0, 0.0, 0.0, 0.0, 0.0], false, 0, 0),
    DetectorConfig("apriltag_36h11", 6.0, 0.05, 100.0,
                   ArucoParams(3, 23, 10, 0.03, 4.0, 0.03, "subpix", 5, 30, 0.1, 0.6, 0.0, false)),
    TagsConfig(0.3, [], []))

  const REPLAY_UDP := UdpConfig(true, "127.0.0.1", 5602, 10.0)
  const REPLAY_LOG := LoggingConfig(5, false)

  function OneMarker(): Marker {
    var o := Point(0.0, 0.0);
    var rotation: Matrix33 := [[1.0, 0.0, 0.0], [0.0, 1.0, 0.0], [0.0, 0.0, 1.0]];
    Marker(7, [o, o, o, o], Some(Pose(0.0, 0.0, Finite(1.0), rotation, (0.0, 0.0, 0.0, 0.0))))
  }

  const PLAYING := G.OpenOutcome(true, false, G.SinkSearch(Some(true), []), true, None)

  const AHEAD := G.Sampled(true, true, true, 640, 480, true, G.GRAY8, Some(0), G.SystemClock(true), Some(6_000_000))

  function ReplayPass(): Pass {
    Pass(AHEAD, 0, 0, 0, false, [OneMarker()], Intrinsics(1.0, 1.0, 1.0, 1.0), 1.0, 0, 200, true, 0, 0, true,
         0, false, [], 0)
  }

  lemma ReplayIsClean()
    ensures Clean(AppConfig([REPLAY], REPLAY_UDP, REPLAY_LOG))
  {
    var app := AppConfig([REPLAY], REPLAY_UDP, REPLAY_LOG);
    assert "appsink" <= REPLAY.gst;
    forall p: Problem ensures !Flaw(app, p) {
      match p {
        case Stream(i, check) =>
          if i == 0 {
            assert !Fails(REPLAY, check);
          }
        case _ =>
      }
    }
  }

  lemma OneMarkerFound(it: Iteration)
    requires it.looked
    ensures |Found(REPLAY, it, ReplayPass())| == 1
  {
    var vs := Verdicts(REPLAY, [OneMarker()]);
    assert vs == [Judge(REPLAY, OneMarker())] && Judge(REPLAY, OneMarker()).Accepted?;
    assert vs[..0] == [] && AcceptedOf(vs[..0]) == [];
  }

  lemma ReplayIteration(tr: seq<Iteration>, passes: seq<Pass>)
    requires passes == [ReplayPass()] && Logged(REPLAY, true, 0, 1000, tr, passes)
    ensures |tr| == 1 && |tr[0].sent| == 1 && !tr[0].sent[0].heartbeat
    ensures tr[0].sent[0].captureUs == 6000 && tr[0].sent[0].publishUs == 1000
  {
    assert FollowsAt(REPLAY, true, 0, 1000, tr, passes, 0);
    assert tr[..0] == [] && passes[..0] == [] && [] + [ReplayPass()] == passes;
    OneMarkerFound(tr[0]);
    assert [] + [ReplayPass()] == [ReplayPass()];
    MonotonicSnoc([], ReplayPass());
  }

  /** It does happen: under a validated configuration, a run of a single iteration
      publishes a detection 5 ms before the instant it claims to have been captured. */
  method AheadOfPublication(domain: string, offset: int) returns (w: StreamWorker)
    ensures fresh(w) && w.cfg == REPLAY && w.domain == domain && w.Steady() && w.Logging()
    ensures Clean(AppConfig([REPLAY], REPLAY_UDP, REPLAY_LOG))
    ensures w.passLog == [ReplayPass()] && w.udp != null && |w.udp.sent| == 1 && !w.udp.sent[0].heartbeat
    ensures w.udp.sent[0].captureUs == 6000 && w.udp.sent[0].publishUs == 1000
  {
    hide StreamWorker.Idle, StreamWorker.Tracking, StreamWorker.Rebuilding, StreamWorker.Reporting,
      StreamWorker.Counting, StreamWorker.Accounted, Disciplined, AllGood, Logged, Detector.Valid, UdpPublisher.Valid,
      G.GstCapture.Valid, Clean;
    ReplayIsClean();
    w := new StreamWorker(REPLAY, REPLAY_UDP, REPLAY_LOG, domain, offset, 1000);
    w.Run(0, 0, [OpenTry(PLAYING, 0, false)], 0, [ReplayPass()]);
    assert w.passLog == [ReplayPass()];
    ReplayIteration(w.trace, w.passLog);
    assert w.trace[..0] == [] && Datagrams(w.trace) == [] + w.trace[0].sent;
  }
}
