// The full log of one worker's run: for every iteration, what the environment did
// and what the worker made of it (src/stream_worker.cpp). Nothing here is state of
// the program; the worker class keeps such a log as a ghost.
module RunLogs {
  import opened Wrappers
  import opened AppConfigs
  import opened Detectors
  import opened UdpPublishers
  import opened WorkerTraces
  import G = GstCaptures

  /** One attempt to open the pipeline; after a failure, how much longer than
      asked the wait lasts, or that the stop flag ends it. */
  datatype OpenTry = OpenTry(outcome: G.OpenOutcome, overshoot: nat, stops: bool)

  /** Inputs of one loop iteration. The `to...` fields advance the clock. */
  datatype Pass = Pass(
    pull: G.Pull, toStamp: nat, toArrival: nat, toNow: nat,
    empty: bool, markers: seq<Marker>, rectified: Intrinsics, detectMs: real,
    toPublish: nat, bytes: nat, taken: bool,
    toBeat: nat, beatBytes: nat, beatTaken: bool,
    overshoot: nat, waitStops: bool, opens: seq<OpenTry>, toResume: nat)

  // ----- opening, and stopping -----

  /** The first attempt that plays, unless one before it is cut short. */
  function FirstPlaying(tries: seq<OpenTry>): (n: Option<nat>)
    ensures n.Some? ==> n.value < |tries| && G.Plays(tries[n.value].outcome)
    ensures n.Some? ==> forall i :: 0 <= i < n.value ==> !G.Plays(tries[i].outcome) && !tries[i].stops
    ensures n.None? ==> forall i :: 0 <= i < |tries| && G.Plays(tries[i].outcome) ==>
              exists j :: 0 <= j < i && !G.Plays(tries[j].outcome) && tries[j].stops
  {
    if tries == [] then None
    else if G.Plays(tries[0].outcome) then Some(0)
    else if tries[0].stops then None
    else
      var n := FirstPlaying(tries[1..]);
      assert forall i :: 1 <= i < |tries| ==> tries[i] == tries[1..][i - 1];
      assert forall j :: 0 <= j < |tries| - 1 ==> tries[1..][j] == tries[j + 1];
      if n.Some? then Some(n.value + 1) else None
  }

  /** Time spent on the first `k` failed attempts and the waits after them. */
  function RetryUs(tries: seq<OpenTry>, k: nat): nat
    requires k <= |tries|
  {
    if k == 0 then 0 else RetryUs(tries, k - 1) + RetryBackoff(k - 1) * SECOND + tries[k - 1].overshoot
  }

  /** One more failure that is not cut short leaves the outcome to the others. */
  lemma PlayingLater(tries: seq<OpenTry>, k: nat)
    requires k < |tries| && !G.Plays(tries[k].outcome)
    ensures tries[k].stops ==> FirstPlaying(tries[k..]).None?
    ensures !tries[k].stops ==> Later(FirstPlaying(tries[k..]), k) == Later(FirstPlaying(tries[k + 1..]), k + 1)
  {
    assert tries[k..][1..] == tries[k + 1..];
  }

  lemma NothingRetried(tries: seq<OpenTry>)
    ensures RetryUs(tries, 0) == 0 && RetrySeconds(0) == 0 && RetryBackoff(0) == BACKOFF_MIN
    ensures FirstPlaying(tries[|tries|..]).None?
  {
  }

  lemma RetriedOnce(tries: seq<OpenTry>, k: nat)
    requires k < |tries|
    ensures RetryUs(tries, k + 1) == RetryUs(tries, k) + RetryBackoff(k) * SECOND + tries[k].overshoot
    ensures RetrySeconds(k + 1) == RetrySeconds(k) + RetryBackoff(k)
    ensures RetryBackoff(k + 1) == Min(2 * RetryBackoff(k), BACKOFF_MAX)
  {
  }

  lemma PlayingHere(tries: seq<OpenTry>, k: nat)
    requires k < |tries| && G.Plays(tries[k].outcome)
    ensures FirstPlaying(tries[k..]) == Some(0)
  {
  }

  function Later(n: Option<nat>, k: nat): Option<nat> {
    if n.Some? then Some(n.value + k) else None
  }

  /** A rebuild `gap` after the last one leads back to reading. */
  predicate Resumes(gap: int, e: Pass) {
    !(gap < RAPID_WINDOW && e.waitStops) && FirstPlaying(e.opens).Some?
  }

  /** An iteration with this outcome is the last one. */
  predicate Halts(outcome: Outcome, gap: int, e: Pass) {
    outcome.Ended? || (outcome.Rebuilt? && !Resumes(gap, e))
  }

  predicate HaltsAt(tr: seq<Iteration>, passes: seq<Pass>, start: nat, i: nat)
    requires i < |tr| == |passes|
  {
    Halts(tr[i].outcome, tr[i].now - LastRebuildAt(tr[..i], start), passes[i])
  }

  /** No iteration so far ends the run. */
  ghost predicate GoesOn(tr: seq<Iteration>, passes: seq<Pass>, start: nat) {
    && |tr| == |passes|
    && forall i {:trigger HaltsAt(tr, passes, start, i)} :: 0 <= i < |tr| ==> !HaltsAt(tr, passes, start, i)
  }

  /** The last one does, and none before it. */
  ghost predicate Halted(tr: seq<Iteration>, passes: seq<Pass>, start: nat) {
    && |tr| == |passes| && tr != [] && HaltsAt(tr, passes, start, |tr| - 1)
    && forall i {:trigger HaltsAt(tr, passes, start, i)} :: 0 <= i < |tr| - 1 ==> !HaltsAt(tr, passes, start, i)
  }

  lemma OneIterationOn(tr: seq<Iteration>, passes: seq<Pass>, start: nat, it: Iteration, e: Pass)
    requires GoesOn(tr, passes, start)
    ensures if Halts(it.outcome, it.now - LastRebuildAt(tr, start), e) then Halted(tr + [it], passes + [e], start)
            else GoesOn(tr + [it], passes + [e], start)
  {
    hide Halts, LastRebuildAt;
    var all, log := tr + [it], passes + [e];
    assert all[..|tr|] == tr;
    forall i | 0 <= i < |tr| ensures !HaltsAt(all, log, start, i) {
      assert !HaltsAt(tr, passes, start, i);
      assert all[..i] == tr[..i] && all[i] == tr[i] && log[i] == passes[i];
    }
  }

  // ----- clock readings of an iteration -----

  /** When the stamp was checked, when the frame had arrived, and when detections
      were published. */
  function CheckUs(it: Iteration, e: Pass): nat {
    it.from + e.toStamp
  }

  function ArrivalUs(it: Iteration, e: Pass): nat {
    it.from + e.toStamp + e.toArrival
  }

  function PublishUs(it: Iteration, e: Pass): nat {
    it.now + e.toPublish
  }

  /** Whether the pipeline clock is known to be monotonic after these iterations. */
  function MonotonicSeen(passes: seq<Pass>): bool {
    if passes == [] then false
    else
      var before, p := MonotonicSeen(passes[..|passes| - 1]), passes[|passes| - 1].pull;
      if G.Delivers(p) then G.MonotonicAfter(before, p) else before
  }

  /** This pull tells what the pipeline clock is. */
  predicate TellsClock(p: G.Pull) {
    G.Delivers(p) && p.pts.Some? && p.clock.SystemClock?
  }

  /** The clock is known to be monotonic exactly when the last frame that told said so. */
  lemma {:induction false} MonotonicSeenExactly(passes: seq<Pass>)
    ensures MonotonicSeen(passes) <==>
      exists i :: 0 <= i < |passes| && TellsClock(passes[i].pull) && passes[i].pull.clock.monotonic &&
        forall j :: i < j < |passes| ==> !TellsClock(passes[j].pull)
  {
    if passes != [] {
      var front, n := passes[..|passes| - 1], |passes| - 1;
      MonotonicSeenExactly(front);
      assert forall i :: 0 <= i < n ==> front[i] == passes[i];
      if MonotonicSeen(passes) && !TellsClock(passes[n].pull) {
        var i :| 0 <= i < n && TellsClock(front[i].pull) && front[i].pull.clock.monotonic &&
                 forall j :: i < j < n ==> !TellsClock(front[j].pull);
        assert TellsClock(passes[i].pull) && forall j :: i < j < |passes| ==> !TellsClock(passes[j].pull);
      }
      if i :| 0 <= i < |passes| && TellsClock(passes[i].pull) && passes[i].pull.clock.monotonic &&
              forall j :: i < j < |passes| ==> !TellsClock(passes[j].pull)
      {
        if i < n {
          assert TellsClock(front[i].pull) && forall j :: i < j < n ==> !TellsClock(front[j].pull);
        }
      }
    }
  }

  lemma MonotonicSnoc(passes: seq<Pass>, e: Pass)
    ensures MonotonicSeen(passes + [e]) ==
              if G.Delivers(e.pull) then G.MonotonicAfter(MonotonicSeen(passes), e.pull) else MonotonicSeen(passes)
  {
    assert (passes + [e])[..|passes|] == passes;
  }

  /** Whether the capture has reported its end, or an error, since it last opened. */
  datatype Flags = Flags(ended: bool, broken: bool)

  ghost function FlagsAfterPull(before: Flags, p: G.Pull): Flags {
    Flags(before.ended || G.Ends(p), before.broken || G.Breaks(p))
  }

  ghost function FlagsAt(tr: seq<Iteration>, passes: seq<Pass>): Flags
    requires |tr| == |passes|
  {
    if tr == [] then Flags(false, false)
    else
      var n := |tr| - 1;
      if tr[n].outcome.Rebuilt? then Flags(false, false)
      else FlagsAfterPull(FlagsAt(tr[..n], passes[..n]), passes[n].pull)
  }

  /** No rebuild in these iterations from the `i`-th on. */
  predicate Unmended(tr: seq<Iteration>, i: nat) {
    i < |tr| && forall j :: i <= j < |tr| ==> !tr[j].outcome.Rebuilt?
  }

  /** The flags stand for the reports since the last rebuild. */
  lemma {:induction false} FlagsAreReports(tr: seq<Iteration>, passes: seq<Pass>)
    requires |tr| == |passes|
    ensures FlagsAt(tr, passes).ended <==> exists i: nat :: Unmended(tr, i) && G.Ends(passes[i].pull)
    ensures FlagsAt(tr, passes).broken <==> exists i: nat :: Unmended(tr, i) && G.Breaks(passes[i].pull)
  {
    hide G.Ends, G.Breaks;
    if tr != [] {
      var n := |tr| - 1;
      FlagsAreReports(tr[..n], passes[..n]);
      assert !tr[n].outcome.Rebuilt? ==> Unmended(tr, n);
      assert forall i: nat :: Unmended(tr, i) && i < n ==> Unmended(tr[..n], i);
      assert forall i: nat :: Unmended(tr[..n], i) && !tr[n].outcome.Rebuilt? ==> Unmended(tr, i);
    }
  }

  lemma FlagsSnoc(tr: seq<Iteration>, passes: seq<Pass>, it: Iteration, e: Pass)
    requires |tr| == |passes|
    ensures FlagsAt(tr + [it], passes + [e]) ==
              if it.outcome.Rebuilt? then Flags(false, false) else FlagsAfterPull(FlagsAt(tr, passes), e.pull)
  {
    assert (tr + [it])[..|tr|] == tr && (passes + [e])[..|tr|] == passes;
  }

  // ----- what an iteration does -----

  /** The verdicts given in an iteration, and the detections that passed. */
  function VerdictsIn(cfg: StreamConfig, it: Iteration, e: Pass): seq<Verdict> {
    if it.looked && !e.empty then Verdicts(cfg, e.markers) else []
  }

  function Found(cfg: StreamConfig, it: Iteration, e: Pass): seq<Detection> {
    if it.looked && !e.empty then AcceptedOf(Verdicts(cfg, e.markers)) else []
  }

  /** The message carries these detections of this frame, with the frame's size and
      stamp, published when the clock said. */
  ghost predicate Reports(cfg: StreamConfig, m: Message, out: seq<Detection>, it: Iteration, e: Pass, monotonic: bool) {
    && !m.heartbeat && |m.detections| == |out|
    && (forall i :: 0 <= i < |out| ==> IsWireOf(m.detections[i], out[i], cfg.cameraId))
    && e.pull.Sampled? && m.width == e.pull.w && m.height == e.pull.h
    && m.captureUs == G.StampUs(e.pull, monotonic, CheckUs(it, e), ArrivalUs(it, e))
    && m.publishUs == PublishUs(it, e)
  }

  /** Detections are sent exactly when there are any; otherwise a heartbeat at most. */
  ghost predicate Publishes(cfg: StreamConfig, it: Iteration, e: Pass, monotonic: bool) {
    var out := Found(cfg, it, e);
    if out == [] then it.sent == [] || it.sent[0].heartbeat
    else |it.sent| == 1 && Reports(cfg, it.sent[0], out, it, e, monotonic)
  }

  /** An iteration may begin at `from`: the first one when the loop was entered, any
      other one once the last is over. */
  predicate Begins(tr: seq<Iteration>, first: nat, from: nat) {
    && IdleSince(tr, first) <= from
    && if tr == [] then from == first else tr[|tr| - 1].now <= from
  }

  /** An iteration after its past: its clock readings, whether a frame came, the rate
      limit, the flags, the watchdog, and (with UDP on) what it sent. */
  ghost predicate Follows(cfg: StreamConfig, on: bool, period: nat, first: nat, tr: seq<Iteration>, passes: seq<Pass>,
                          it: Iteration, e: Pass)
    requires |tr| == |passes|
  {
    && Begins(tr, first, it.from)
    && it.now == it.from + e.toStamp + e.toArrival + e.toNow
    && (it.gotFrame <==> G.Delivers(e.pull))
    && (it.looked <==> it.gotFrame && (period == 0 || it.now - LastLook(tr) >= period))
    && (it.flagged <==> FlagsAfterPull(FlagsAt(tr, passes), e.pull) != Flags(false, false))
    && (it.ending <==> FlagsAfterPull(FlagsAt(tr, passes), e.pull).ended && cfg.exitOnEos)
    && Watches(tr, first, cfg.watchdogSec, it)
    && (on ==> Publishes(cfg, it, e, MonotonicSeen(passes + [e])))
  }

  ghost predicate FollowsAt(cfg: StreamConfig, on: bool, period: nat, first: nat, tr: seq<Iteration>, passes: seq<Pass>,
                            i: nat)
    requires i < |tr| == |passes|
  {
    Follows(cfg, on, period, first, tr[..i], passes[..i], tr[i], passes[i])
  }

  /** The log of a whole run. */
  ghost predicate Logged(cfg: StreamConfig, on: bool, period: nat, first: nat, tr: seq<Iteration>, passes: seq<Pass>) {
    && |tr| == |passes|
    && forall i {:trigger FollowsAt(cfg, on, period, first, tr, passes, i)} ::
         0 <= i < |tr| ==> FollowsAt(cfg, on, period, first, tr, passes, i)
  }

  lemma LoggedSnoc(cfg: StreamConfig, on: bool, period: nat, first: nat, tr: seq<Iteration>, passes: seq<Pass>,
                   it: Iteration, e: Pass)
    requires Logged(cfg, on, period, first, tr, passes) && Follows(cfg, on, period, first, tr, passes, it, e)
    ensures Logged(cfg, on, period, first, tr + [it], passes + [e])
  {
    hide Follows;
    var all, log := tr + [it], passes + [e];
    assert all[..|tr|] == tr && log[..|tr|] == passes;
    forall i | 0 <= i < |all| ensures FollowsAt(cfg, on, period, first, all, log, i) {
      if i < |tr| {
        assert FollowsAt(cfg, on, period, first, tr, passes, i);
        assert all[..i] == tr[..i] && all[i] == tr[i] && log[..i] == passes[..i] && log[i] == passes[i];
      }
    }
  }

  // ----- what the log of a run says -----

  /** A logged run is a watched one. */
  lemma LoggedIsWatched(cfg: StreamConfig, on: bool, period: nat, first: nat, tr: seq<Iteration>, passes: seq<Pass>)
    requires Logged(cfg, on, period, first, tr, passes)
    ensures Watched(tr, first, cfg.watchdogSec)
  {
    forall i | 0 <= i < |tr| ensures WatchesAt(tr, first, cfg.watchdogSec, i) {
      assert FollowsAt(cfg, on, period, first, tr, passes, i);
    }
  }

  /** base + PTS of the iteration's frame is exact and runs ahead of its publication. */
  predicate Late(it: Iteration, e: Pass, monotonic: bool) {
    && e.pull.Sampled? && e.pull.pts.Some? && e.pull.base.Some? && monotonic
    && PublishUs(it, e) < (e.pull.base.value + e.pull.pts.value) / 1000 <= CheckUs(it, e) + G.FUTURE_SLACK_US
  }

  /** A published frame's capture stamp lies ahead of its publish stamp exactly when
      base + PTS was exact, within the slack of the clock it was compared with, and past the
      clock at publication. */
  lemma LateExactly(cfg: StreamConfig, period: nat, first: nat, tr: seq<Iteration>, passes: seq<Pass>, i: nat)
    requires Logged(cfg, true, period, first, tr, passes) && i < |tr|
    requires tr[i].sent != [] && !tr[i].sent[0].heartbeat
    ensures tr[i].sent[0].captureUs > tr[i].sent[0].publishUs <==>
            Late(tr[i], passes[i], MonotonicSeen(passes[..i + 1]))
  {
    assert FollowsAt(cfg, true, period, first, tr, passes, i);
    assert passes[..i] + [passes[i]] == passes[..i + 1];
    var it, e := tr[i], passes[i];
    G.AheadExactly(e.pull, MonotonicSeen(passes[..i + 1]), CheckUs(it, e), ArrivalUs(it, e), PublishUs(it, e));
  }

  /** The stamp of a published detection is its own frame's: base + PTS to the whole
      microsecond below where that counts, otherwise when the frame had arrived. */
  lemma PublishedStamp(cfg: StreamConfig, period: nat, first: nat, tr: seq<Iteration>, passes: seq<Pass>, i: nat)
    returns (exact: bool)
    requires Logged(cfg, true, period, first, tr, passes) && i < |tr|
    requires tr[i].sent != [] && !tr[i].sent[0].heartbeat
    ensures G.StampedAs(passes[i].pull, MonotonicSeen(passes[..i + 1]), tr[i].from + passes[i].toStamp,
                        tr[i].from + passes[i].toStamp + passes[i].toArrival, tr[i].sent[0].captureUs, exact)
    ensures tr[i].sent[0].publishUs == tr[i].now + passes[i].toPublish
    ensures tr[i].now == tr[i].from + passes[i].toStamp + passes[i].toArrival + passes[i].toNow
    ensures tr[i].sent[0].width == passes[i].pull.w && tr[i].sent[0].height == passes[i].pull.h
  {
    assert FollowsAt(cfg, true, period, first, tr, passes, i);
    assert passes[..i] + [passes[i]] == passes[..i + 1];
    var it, e := tr[i], passes[i];
    G.StampIsStamped(e.pull, MonotonicSeen(passes[..i + 1]), CheckUs(it, e), ArrivalUs(it, e));
    exact := G.ExactStamp(e.pull, MonotonicSeen(passes[..i + 1]), CheckUs(it, e)).Some?;
  }

  /** What a failing pipeline comes to: an error on the bus, or caps that do not parse,
      rebuild it; the end of the stream does, too, unless the stream is to stop there. */
  lemma ReportsAreAnswered(cfg: StreamConfig, on: bool, period: nat, first: nat, tr: seq<Iteration>, passes: seq<Pass>,
                           i: nat, k: nat)
    requires Logged(cfg, on, period, first, tr, passes) && i < |tr|
    ensures var p := passes[i].pull;
      (p.NoSample? && p.bus.Some? && k < |p.bus.value| && p.bus.value[k].BusError?)
      || (p.Sampled? && p.hasBuffer && p.hasCaps && !p.capsParse) ==>
        !tr[i].gotFrame && (tr[i].outcome.Rebuilt? || (cfg.exitOnEos && tr[i].outcome.Ended?))
    ensures var p := passes[i].pull;
      p.NoSample? && (p.sinkEos || (p.bus.Some? && G.BusEos in p.bus.value)) ==>
        !tr[i].gotFrame && if cfg.exitOnEos then tr[i].outcome.Ended? else tr[i].outcome.Rebuilt?
  {
    assert FollowsAt(cfg, on, period, first, tr, passes, i);
  }

  // ----- the detector's rate -----

  lemma {:induction false} LastLookIsLatest(cfg: StreamConfig, on: bool, period: nat, first: nat, tr: seq<Iteration>,
                                            passes: seq<Pass>)
    requires Logged(cfg, on, period, first, tr, passes)
    ensures forall k :: 0 <= k < |tr| && tr[k].looked ==> tr[k].now <= LastLook(tr)
    ensures LastLook(tr) == 0 || exists k :: 0 <= k < |tr| && tr[k].looked && tr[k].now == LastLook(tr)
    ensures LastLook(tr) <= LastNow(tr, first)
  {
    if tr != [] {
      var front, n := tr[..|tr| - 1], |tr| - 1;
      LoggedFront(cfg, on, period, first, tr, passes);
      LastLookIsLatest(cfg, on, period, first, front, passes[..n]);
      assert forall k :: 0 <= k < n ==> front[k] == tr[k];
      assert tr[n].now >= LastNow(front, first);
    }
  }

  lemma {:induction false} LoggedUpTo(cfg: StreamConfig, on: bool, period: nat, first: nat, tr: seq<Iteration>,
                                      passes: seq<Pass>, j: nat)
    requires Logged(cfg, on, period, first, tr, passes) && j <= |tr|
    ensures Logged(cfg, on, period, first, tr[..j], passes[..j])
    decreases |tr|
  {
    hide Logged;
    if j < |tr| {
      LoggedLength(cfg, on, period, first, tr, passes);
      LoggedFront(cfg, on, period, first, tr, passes);
      LoggedUpTo(cfg, on, period, first, tr[..|tr| - 1], passes[..|tr| - 1], j);
      assert tr[..|tr| - 1][..j] == tr[..j] && passes[..|tr| - 1][..j] == passes[..j];
    } else {
      LoggedLength(cfg, on, period, first, tr, passes);
      assert tr[..j] == tr && passes[..j] == passes;
    }
  }

  lemma LoggedLength(cfg: StreamConfig, on: bool, period: nat, first: nat, tr: seq<Iteration>, passes: seq<Pass>)
    requires Logged(cfg, on, period, first, tr, passes)
    ensures |tr| == |passes|
  {
  }

  /** The detector runs at its rate: two looks are a period apart, and a frame it
      skips comes less than a period after some look, or after the clock's zero. */
  lemma LookedAtRate(cfg: StreamConfig, on: bool, period: nat, first: nat, tr: seq<Iteration>, passes: seq<Pass>,
                     i: nat, j: nat)
    requires Logged(cfg, on, period, first, tr, passes) && i < j < |tr|
    ensures tr[i].looked && tr[j].looked && period > 0 ==> tr[j].now - tr[i].now >= period
    ensures tr[j].looked ==> tr[j].gotFrame
    ensures tr[j].gotFrame && !tr[j].looked ==>
      tr[j].now < period || exists k :: 0 <= k < j && tr[k].looked && tr[j].now - tr[k].now < period
  {
    assert FollowsAt(cfg, on, period, first, tr, passes, j);
    LoggedUpTo(cfg, on, period, first, tr, passes, j);
    var past := tr[..j];
    LastLookIsLatest(cfg, on, period, first, past, passes[..j]);
    assert past[i] == tr[i];
  }

  /** All verdicts of a run, and the sizes of the frames looked at. */
  function SeenOf(cfg: StreamConfig, tr: seq<Iteration>, passes: seq<Pass>): seq<Verdict>
    requires |tr| == |passes|
  {
    if tr == [] then []
    else
      var n := |tr| - 1;
      SeenOf(cfg, tr[..n], passes[..n]) + VerdictsIn(cfg, tr[n], passes[n])
  }

  function SizeIn(it: Iteration, e: Pass): seq<Size> {
    if it.looked && !e.empty && e.pull.Sampled? then [Size(e.pull.w, e.pull.h)] else []
  }

  function SizesOf(tr: seq<Iteration>, passes: seq<Pass>): seq<Size>
    requires |tr| == |passes|
  {
    if tr == [] then []
    else
      var n := |tr| - 1;
      SizesOf(tr[..n], passes[..n]) + SizeIn(tr[n], passes[n])
  }

  lemma SeenSnoc(cfg: StreamConfig, tr: seq<Iteration>, passes: seq<Pass>, it: Iteration, e: Pass)
    requires |tr| == |passes|
    ensures SeenOf(cfg, tr + [it], passes + [e]) == SeenOf(cfg, tr, passes) + VerdictsIn(cfg, it, e)
    ensures SizesOf(tr + [it], passes + [e]) == SizesOf(tr, passes) + SizeIn(it, e)
  {
    assert (tr + [it])[..|tr|] == tr && (passes + [e])[..|tr|] == passes;
  }

  /** Every frame that comes has this size. */
  predicate OneSize(passes: seq<Pass>, s: Size) {
    forall i :: 0 <= i < |passes| && G.Delivers(passes[i].pull) ==> Size(passes[i].pull.w, passes[i].pull.h) == s
  }

  lemma LoggedFront(cfg: StreamConfig, on: bool, period: nat, first: nat, tr: seq<Iteration>, passes: seq<Pass>)
    requires Logged(cfg, on, period, first, tr, passes) && tr != []
    ensures var n := |tr| - 1;
            && Logged(cfg, on, period, first, tr[..n], passes[..n])
            && Follows(cfg, on, period, first, tr[..n], passes[..n], tr[n], passes[n])
  {
    hide Follows;
    var n := |tr| - 1;
    var front, log := tr[..n], passes[..n];
    assert FollowsAt(cfg, on, period, first, tr, passes, n);
    forall i | 0 <= i < n ensures FollowsAt(cfg, on, period, first, front, log, i) {
      assert FollowsAt(cfg, on, period, first, tr, passes, i);
      assert front[..i] == tr[..i] && front[i] == tr[i] && log[..i] == passes[..i] && log[i] == passes[i];
    }
  }

  lemma {:induction false} OneSizeLooked(cfg: StreamConfig, on: bool, period: nat, first: nat, tr: seq<Iteration>,
                                         passes: seq<Pass>, s: Size)
    requires Logged(cfg, on, period, first, tr, passes) && OneSize(passes, s)
    ensures AllAt(SizesOf(tr, passes), s)
  {
    if tr != [] {
      LoggedFront(cfg, on, period, first, tr, passes);
      OneSizeLooked(cfg, on, period, first, tr[..|tr| - 1], passes[..|tr| - 1], s);
    }
  }
}
