// What the logs of one stream worker look like, and what follows from it: the
// datagrams of its loop iterations, and its pipeline rebuilds
// (src/stream_worker.cpp). Times are microseconds on the monotonic clock.
module WorkerTraces {
  import opened UdpPublishers

  const SECOND := 1_000_000

  /** How an iteration went: a frame was served; nothing was done; the stream had
      ended; or the pipeline was rebuilt, and reading went on at `resumed`. */
  datatype Outcome = Served | Waited | Ended | Rebuilt(resumed: nat)

  /** One iteration of the loop: the clock when it began, whether a frame arrived,
      the time it then read, the datagrams it sent, whether the detector looked at
      the frame, whether the capture had reported an error or its end, whether that
      end was one to stop at, and how it went. */
  datatype Iteration = Iteration(
    from: nat, gotFrame: bool, now: nat, sent: seq<Message>, looked: bool, flagged: bool, ending: bool,
    outcome: Outcome)

  function Datagrams(tr: seq<Iteration>): seq<Message> {
    if tr == [] then [] else Datagrams(tr[..|tr| - 1]) + tr[|tr| - 1].sent
  }

  function LastNow(tr: seq<Iteration>, start: nat): nat {
    if tr == [] then start else tr[|tr| - 1].now
  }

  function LastPublish(tr: seq<Iteration>, start: nat): nat {
    if tr == [] then start
    else if tr[|tr| - 1].sent != [] then tr[|tr| - 1].now
    else LastPublish(tr[..|tr| - 1], start)
  }

  /** Instants at which a frame arrived. */
  function FrameTimes(tr: seq<Iteration>): seq<nat> {
    if tr == [] then []
    else FrameTimes(tr[..|tr| - 1]) + if tr[|tr| - 1].gotFrame then [tr[|tr| - 1].now] else []
  }

  /** An iteration after the history `tr`: at most one datagram, none without a
      frame, numbered next; a heartbeat only a full period after the last publish,
      and silence on a frame only before that. */
  ghost predicate StepOk(tr: seq<Iteration>, it: Iteration, start: nat, period: nat) {
    && LastNow(tr, start) <= it.now
    && |it.sent| <= 1
    && (it.sent != [] ==> it.gotFrame && it.sent[0].frameId == |Datagrams(tr)| + 1)
    && (it.sent != [] && it.sent[0].heartbeat ==> period > 0 && it.now - LastPublish(tr, start) >= period)
    && (it.gotFrame && it.sent == [] && period > 0 ==> it.now - LastPublish(tr, start) < period)
  }

  ghost predicate StepAt(tr: seq<Iteration>, start: nat, period: nat, i: nat)
    requires i < |tr|
  {
    StepOk(tr[..i], tr[i], start, period)
  }

  /** Every iteration of the trace is such a step after its past. */
  ghost predicate Disciplined(tr: seq<Iteration>, start: nat, period: nat) {
    forall i {:trigger StepAt(tr, start, period, i)} :: 0 <= i < |tr| ==> StepAt(tr, start, period, i)
  }

  lemma DatagramsSnoc(tr: seq<Iteration>, it: Iteration)
    ensures Datagrams(tr + [it]) == Datagrams(tr) + it.sent
  {
    assert (tr + [it])[..|tr|] == tr;
  }

  lemma DisciplinedSnoc(tr: seq<Iteration>, it: Iteration, start: nat, period: nat)
    requires Disciplined(tr, start, period) && StepOk(tr, it, start, period)
    ensures Disciplined(tr + [it], start, period)
    ensures LastNow(tr + [it], start) == it.now
    ensures LastPublish(tr + [it], start) == if it.sent != [] then it.now else LastPublish(tr, start)
  {
    var all := tr + [it];
    assert all[..|tr|] == tr;
    forall i | 0 <= i < |all| ensures StepAt(all, start, period, i) {
      if i < |tr| {
        assert StepAt(tr, start, period, i);
        assert all[..i] == tr[..i] && all[i] == tr[i];
      }
    }
  }

  /** A disciplined trace is a disciplined one and a last step. */
  lemma DisciplinedFront(tr: seq<Iteration>, start: nat, period: nat)
    requires Disciplined(tr, start, period) && tr != []
    ensures Disciplined(tr[..|tr| - 1], start, period)
    ensures StepOk(tr[..|tr| - 1], tr[|tr| - 1], start, period)
  {
    var front := tr[..|tr| - 1];
    assert StepAt(tr, start, period, |tr| - 1);
    forall i | 0 <= i < |front| ensures StepAt(front, start, period, i) {
      assert StepAt(tr, start, period, i);
      assert front[..i] == tr[..i] && front[i] == tr[i];
    }
  }

  /** Datagram ids are exactly 1..k, in order. */
  lemma {:induction false} IdsAreConsecutive(tr: seq<Iteration>, start: nat, period: nat)
    requires Disciplined(tr, start, period)
    ensures forall i :: 0 <= i < |Datagrams(tr)| ==> Datagrams(tr)[i].frameId == i + 1
  {
    if tr != [] {
      DisciplinedFront(tr, start, period);
      IdsAreConsecutive(tr[..|tr| - 1], start, period);
    }
  }

  /** Every datagram of a run is the one some iteration sent. */
  lemma {:induction false} DatagramIsSent(tr: seq<Iteration>, start: nat, period: nat, t: nat) returns (i: nat)
    requires Disciplined(tr, start, period) && t < |Datagrams(tr)|
    ensures i < |tr| && tr[i].sent == [Datagrams(tr)[t]]
  {
    hide Disciplined;
    var n := |tr| - 1;
    DisciplinedFront(tr, start, period);
    if t < |Datagrams(tr[..n])| {
      i := DatagramIsSent(tr[..n], start, period, t);
    } else {
      i := n;
    }
  }

  /** The iterations with a frame, and those that sent something. */
  ghost function FrameIndices(tr: seq<Iteration>): set<int> {
    set i | 0 <= i < |tr| && tr[i].gotFrame
  }

  ghost function SendIndices(tr: seq<Iteration>): set<int> {
    set i | 0 <= i < |tr| && tr[i].sent != []
  }

  lemma OneFrameMore(front: seq<Iteration>, it: Iteration)
    ensures |FrameIndices(front + [it])| == |FrameIndices(front)| + if it.gotFrame then 1 else 0
  {
    assert FrameIndices(front + [it]) == FrameIndices(front) + (if it.gotFrame then {|front|} else {});
  }

  lemma OneSendMore(front: seq<Iteration>, it: Iteration)
    ensures |SendIndices(front + [it])| == |SendIndices(front)| + if it.sent != [] then 1 else 0
  {
    assert SendIndices(front + [it]) == SendIndices(front) + (if it.sent != [] then {|front|} else {});
  }

  /** As many frames as iterations with one. */
  lemma {:induction false} FramesCounted(tr: seq<Iteration>)
    ensures |FrameTimes(tr)| == |FrameIndices(tr)|
  {
    hide FrameIndices;
    if tr != [] {
      FramesCounted(tr[..|tr| - 1]);
      OneFrameMore(tr[..|tr| - 1], tr[|tr| - 1]);
      assert tr == tr[..|tr| - 1] + [tr[|tr| - 1]];
    } else {
      NoIndices();
    }
  }

  lemma NoIndices()
    ensures FrameIndices([]) == {} && SendIndices([]) == {}
  {
  }

  lemma SendsAreFrames(tr: seq<Iteration>, start: nat, period: nat)
    requires Disciplined(tr, start, period)
    ensures SendIndices(tr) <= FrameIndices(tr)
  {
    forall i | i in SendIndices(tr) ensures i in FrameIndices(tr) {
      assert StepAt(tr, start, period, i);
    }
  }

  /** As many datagrams as iterations that sent, each of them one with a frame; so no more
      than frames. */
  lemma {:induction false} DatagramsNeedFrames(tr: seq<Iteration>, start: nat, period: nat)
    requires Disciplined(tr, start, period)
    ensures |Datagrams(tr)| == |SendIndices(tr)| && SendIndices(tr) <= FrameIndices(tr)
    ensures |Datagrams(tr)| <= |FrameIndices(tr)| == |FrameTimes(tr)|
  {
    hide Disciplined, FrameIndices, SendIndices;
    if tr != [] {
      DisciplinedFront(tr, start, period);
      DatagramsNeedFrames(tr[..|tr| - 1], start, period);
      OneSendMore(tr[..|tr| - 1], tr[|tr| - 1]);
      FramesCounted(tr[..|tr| - 1]);
      assert tr == tr[..|tr| - 1] + [tr[|tr| - 1]];
    } else {
      NoIndices();
    }
    FramesCounted(tr);
    SendsAreFrames(tr, start, period);
  }

  /** The last publish: none lies after it, and it is one unless there was none. */
  lemma {:induction false} LastPublishIsPast(tr: seq<Iteration>, start: nat, period: nat)
    requires Disciplined(tr, start, period)
    ensures start <= LastPublish(tr, start) <= LastNow(tr, start)
    ensures forall k :: 0 <= k < |tr| && tr[k].sent != [] ==> tr[k].now <= LastPublish(tr, start)
    ensures LastPublish(tr, start) == start || exists k :: 0 <= k < |tr| && PublishedAt(tr[k], LastPublish(tr, start))
  {
    if tr != [] {
      var front, n := tr[..|tr| - 1], |tr| - 1;
      DisciplinedFront(tr, start, period);
      LastPublishIsPast(front, start, period);
      assert forall k :: 0 <= k < n ==> front[k] == tr[k];
      assert tr[n].sent != [] ==> PublishedAt(tr[n], LastPublish(tr, start));
    }
  }

  predicate PublishedAt(it: Iteration, at: nat) {
    it.sent != [] && it.now == at
  }

  lemma {:induction false} LastPublishIs(tr: seq<Iteration>, start: nat, i: nat)
    requires i < |tr| && tr[i].sent != [] && forall k :: i < k < |tr| ==> tr[k].sent == []
    ensures LastPublish(tr, start) == tr[i].now
  {
    if i < |tr| - 1 {
      LastPublishIs(tr[..|tr| - 1], start, i);
    }
  }

  /** `j` is the next frame after `i`. */
  ghost predicate NextFrame(tr: seq<Iteration>, i: nat, j: nat) {
    i < j < |tr| && tr[i].gotFrame && tr[j].gotFrame && forall k :: i < k < j ==> !tr[k].gotFrame
  }

  /** `j` is the next datagram after `i`. */
  ghost predicate NextDatagram(tr: seq<Iteration>, i: nat, j: nat) {
    i < j < |tr| && tr[i].sent != [] && tr[j].sent != [] && forall k :: i < k < j ==> tr[k].sent == []
  }

  lemma FrameBefore(tr: seq<Iteration>, i: nat, j: nat) returns (b: nat)
    requires i < j < |tr| && tr[i].gotFrame && tr[j].gotFrame
    ensures i <= b < j && NextFrame(tr, b, j)
  {
    b := j - 1;
    while !tr[b].gotFrame
      invariant i <= b < j && forall k :: b < k < j ==> !tr[k].gotFrame
      decreases b
    {
      b := b - 1;
    }
  }

  /** Publish cadence: while frames arrive at most `d` apart, consecutive publishes
      are less than a heartbeat period plus `d` apart. */
  lemma PublishCadence(tr: seq<Iteration>, start: nat, period: nat, d: nat, i: nat, j: nat)
    requires Disciplined(tr, start, period) && period > 0
    requires forall a: nat, b: nat :: NextFrame(tr, a, b) ==> tr[b].now - tr[a].now <= d
    requires NextDatagram(tr, i, j)
    ensures tr[j].now - tr[i].now < period + d
  {
    assert StepAt(tr, start, period, i) && StepAt(tr, start, period, j);
    var b := FrameBefore(tr, i, j);
    if i < b {
      assert StepAt(tr, start, period, b);
      LastPublishIs(tr[..b], start, i);
    }
  }

  /** With the period cut to zero (a rate above 1 MHz) no heartbeat is ever sent. */
  lemma {:induction false} NoPeriodNoHeartbeat(tr: seq<Iteration>, start: nat)
    requires Disciplined(tr, start, 0)
    ensures forall i :: 0 <= i < |Datagrams(tr)| ==> !Datagrams(tr)[i].heartbeat
  {
    if tr != [] {
      DisciplinedFront(tr, start, 0);
      NoPeriodNoHeartbeat(tr[..|tr| - 1], start);
    }
  }

  /** 1e6 / hz, truncated; 0 stands for "no heartbeats". */
  function PeriodUs(hz: real): nat {
    if hz > 0.0 then
      Divides(1000000.0, hz);
      (1000000.0 / hz).Floor
    else 0
  }

  lemma Divides(a: real, d: real)
    requires a > 0.0 && d > 0.0
    ensures a / d > 0.0
  {
    var q := a / d;
    assert q * d == a;
  }

  /** A positive rate yields heartbeats exactly up to one a microsecond. */
  lemma HeartbeatsOnExactly(hz: real)
    requires hz > 0.0
    ensures PeriodUs(hz) > 0 <==> hz <= 1000000.0
  {
    var q := 1000000.0 / hz;
    assert q * hz == 1000000.0;
    AtLeastOneExactly(q, hz);
  }

  /** The period is the largest whole number of microseconds that does not take the
      rate below the one asked for; without a rate there is none. */
  lemma PeriodExactly(hz: real, n: nat)
    requires n == PeriodUs(hz)
    ensures hz <= 0.0 ==> n == 0
    ensures hz > 0.0 ==> n as real * hz <= 1000000.0 < (n + 1) as real * hz
  {
    hide PeriodUs;
    if hz > 0.0 {
      var q := PeriodIsFloor(hz);
      FloorMeans(q, n, hz, 1000000.0);
    } else {
      NoPeriod(hz);
    }
  }

  lemma NoPeriod(hz: real)
    ensures hz <= 0.0 ==> PeriodUs(hz) == 0
  {
  }

  lemma PeriodIsFloor(hz: real) returns (q: real)
    requires hz > 0.0
    ensures q * hz == 1000000.0 && PeriodUs(hz) == q.Floor
  {
    q := 1000000.0 / hz;
  }

  lemma FloorMeans(q: real, n: int, d: real, a: real)
    requires n == q.Floor && d > 0.0 && q * d == a
    ensures n as real * d <= a < (n + 1) as real * d
  {
    Between(n as real, q, (n + 1) as real, d, a);
  }

  lemma Between(lo: real, q: real, hi: real, d: real, a: real)
    requires lo <= q < hi && d > 0.0 && q * d == a
    ensures lo * d <= a < hi * d
  {
    Scaled(lo, q, d);
    Scaled(q, hi, d);
  }

  lemma Scaled(a: real, b: real, d: real)
    requires d > 0.0
    ensures a <= b ==> a * d <= b * d
    ensures a < b ==> a * d < b * d
  {
  }

  lemma AtLeastOneExactly(q: real, hz: real)
    requires hz > 0.0 && q * hz == 1000000.0
    ensures q >= 1.0 <==> hz <= 1000000.0
  {
  }

  // ----- the rate limit and the watchdog -----

  /** When the detector last looked at a frame. */
  function LastLook(tr: seq<Iteration>): nat {
    if tr == [] then 0 else if tr[|tr| - 1].looked then tr[|tr| - 1].now else LastLook(tr[..|tr| - 1])
  }

  /** Since when the stream has been idle: its last frame or its last reopening. */
  function IdleSince(tr: seq<Iteration>, first: nat): nat {
    if tr == [] then first
    else if tr[|tr| - 1].gotFrame then tr[|tr| - 1].now
    else if tr[|tr| - 1].outcome.Rebuilt? then tr[|tr| - 1].outcome.resumed
    else IdleSince(tr[..|tr| - 1], first)
  }

  function LastOutcome(tr: seq<Iteration>): Outcome {
    if tr == [] then Waited else tr[|tr| - 1].outcome
  }

  function Seconds(us: int): real {
    us as real / 1000000.0
  }

  /** A frameless iteration after the history `tr`: it ends a stream that is to stop
      at its end; otherwise it rebuilds exactly when the capture is flagged or has
      been idle for longer than the watchdog allows. */
  ghost predicate Watches(tr: seq<Iteration>, first: nat, watchdog: real, it: Iteration) {
    && IdleSince(tr, first) <= it.from <= it.now
    && (it.gotFrame ==> it.outcome.Served?)
    && (!it.gotFrame ==> !it.outcome.Served?)
    && (!it.gotFrame ==> (it.outcome.Ended? <==> it.ending))
    && (!it.gotFrame ==> (it.outcome.Rebuilt? <==>
                            !it.ending && (it.flagged || Seconds(it.now - IdleSince(tr, first)) > watchdog)))
    && (it.outcome.Rebuilt? ==> it.outcome.resumed >= it.now)
  }

  ghost predicate WatchesAt(tr: seq<Iteration>, first: nat, watchdog: real, i: nat)
    requires i < |tr|
  {
    Watches(tr[..i], first, watchdog, tr[i])
  }

  ghost predicate Watched(tr: seq<Iteration>, first: nat, watchdog: real) {
    forall i {:trigger WatchesAt(tr, first, watchdog, i)} :: 0 <= i < |tr| ==> WatchesAt(tr, first, watchdog, i)
  }

  lemma WatchedFront(tr: seq<Iteration>, first: nat, watchdog: real)
    requires Watched(tr, first, watchdog) && tr != []
    ensures Watched(tr[..|tr| - 1], first, watchdog)
    ensures Watches(tr[..|tr| - 1], first, watchdog, tr[|tr| - 1])
  {
    var front := tr[..|tr| - 1];
    assert WatchesAt(tr, first, watchdog, |tr| - 1);
    forall i | 0 <= i < |front| ensures WatchesAt(front, first, watchdog, i) {
      assert WatchesAt(tr, first, watchdog, i);
      assert front[..i] == tr[..i] && front[i] == tr[i];
    }
  }

  /** A frame, or a reopening, at this instant. */
  predicate EndsIdle(it: Iteration, at: nat) {
    (it.gotFrame && it.now == at) || (it.outcome.Rebuilt? && it.outcome.resumed == at)
  }

  /** The idle time runs from the latest of all frames and all reopenings. */
  lemma {:induction false} IdleSinceIsLatest(tr: seq<Iteration>, first: nat, watchdog: real)
    requires Watched(tr, first, watchdog)
    ensures first <= IdleSince(tr, first)
    ensures forall k :: 0 <= k < |tr| && tr[k].gotFrame ==> tr[k].now <= IdleSince(tr, first)
    ensures forall k :: 0 <= k < |tr| && tr[k].outcome.Rebuilt? ==> tr[k].outcome.resumed <= IdleSince(tr, first)
    ensures IdleSince(tr, first) == first || exists k :: 0 <= k < |tr| && EndsIdle(tr[k], IdleSince(tr, first))
  {
    if tr != [] {
      var front, n := tr[..|tr| - 1], |tr| - 1;
      WatchedFront(tr, first, watchdog);
      IdleSinceIsLatest(front, first, watchdog);
      assert forall k :: 0 <= k < n ==> front[k] == tr[k];
      assert tr[n].gotFrame || tr[n].outcome.Rebuilt? ==> EndsIdle(tr[n], IdleSince(tr, first));
    }
  }

  /** Between two rebuilds of which the watchdog asked for the second, more than its
      timeout passes. */
  lemma WatchdogRebuildsApart(tr: seq<Iteration>, first: nat, watchdog: real, i: nat, j: nat)
    requires Watched(tr, first, watchdog) && i < j < |tr|
    requires tr[i].outcome.Rebuilt? && tr[j].outcome.Rebuilt? && !tr[j].flagged
    ensures (tr[j].now - tr[i].now) as real > watchdog * 1000000.0
  {
    assert WatchesAt(tr, first, watchdog, i) && WatchesAt(tr, first, watchdog, j);
    var past := tr[..j];
    forall k | 0 <= k < |past| ensures WatchesAt(past, first, watchdog, k) {
      assert WatchesAt(tr, first, watchdog, k);
      assert past[..k] == tr[..k] && past[k] == tr[k];
    }
    IdleSinceIsLatest(past, first, watchdog);
    assert past[i] == tr[i];
    SecondsMean(tr[j].now - IdleSince(past, first), watchdog);
  }

  /** A million microseconds are a second. */
  lemma SecondsMean(us: int, limit: real)
    ensures Seconds(us) > limit <==> us as real > limit * 1000000.0
  {
    var q := Seconds(us);
    assert q * 1000000.0 == us as real;
  }

  // ----- rebuilds -----

  const RAPID_WINDOW := 5 * SECOND
  const BACKOFF_MIN := 1
  const BACKOFF_MAX := 10

  /** One pipeline rebuild: when, and the backoff in seconds it chose. */
  datatype Rebuild = Rebuild(at: nat, backoff: nat)

  function Min(a: int, b: int): int { if a <= b then a else b }

  function NextBackoff(gap: int, backoff: nat): nat {
    if gap < RAPID_WINDOW then Min(if backoff > 0 then 2 * backoff else BACKOFF_MIN, BACKOFF_MAX) else 0
  }

  /** A rebuild follows the previous one after at least its backoff. */
  ghost predicate RebuildOk(previous: Rebuild, r: Rebuild) {
    && r.at >= previous.at + previous.backoff * SECOND
    && r.backoff == NextBackoff(r.at - previous.at, previous.backoff)
  }

  /** A rebuild within five seconds of the last one doubles the wait, from one second to
      ten at most; a later one does not wait. None comes before the last wait is over. */
  lemma RebuildMeans(previous: Rebuild, r: Rebuild)
    requires RebuildOk(previous, r)
    ensures r.at >= previous.at + previous.backoff * 1_000_000
    ensures r.at - previous.at >= 5_000_000 ==> r.backoff == 0
    ensures r.at - previous.at < 5_000_000 ==>
      r.backoff == if previous.backoff == 0 then 1 else if previous.backoff >= 5 then 10 else 2 * previous.backoff
  {
  }

  function LastRebuild(rs: seq<Rebuild>, start: nat): Rebuild {
    if rs == [] then Rebuild(start, 0) else rs[|rs| - 1]
  }

  /** The rebuilds of a run that started at `start` with no backoff. */
  ghost predicate RebuildsOk(rs: seq<Rebuild>, start: nat) {
    forall i :: 0 <= i < |rs| ==> RebuildOk(LastRebuild(rs[..i], start), rs[i])
  }

  lemma RebuildsSnoc(rs: seq<Rebuild>, start: nat, r: Rebuild)
    requires RebuildsOk(rs, start) && RebuildOk(LastRebuild(rs, start), r)
    ensures RebuildsOk(rs + [r], start) && LastRebuild(rs + [r], start) == r
  {
    var all := rs + [r];
    forall i | 0 <= i < |all| ensures RebuildOk(LastRebuild(all[..i], start), all[i]) {
      assert all[..i] == rs[..i];
    }
  }

  /** Instants of the rebuilds, by their log and by the trace. */
  function AtTimes(rs: seq<Rebuild>): (times: seq<nat>)
    ensures |times| == |rs| && forall i :: 0 <= i < |rs| ==> times[i] == rs[i].at
  {
    if rs == [] then [] else AtTimes(rs[..|rs| - 1]) + [rs[|rs| - 1].at]
  }

  function RebuildTimes(tr: seq<Iteration>): seq<nat> {
    if tr == [] then []
    else RebuildTimes(tr[..|tr| - 1]) + if tr[|tr| - 1].outcome.Rebuilt? then [tr[|tr| - 1].now] else []
  }

  /** When the pipeline was last rebuilt, or the worker began. */
  function LastRebuildAt(tr: seq<Iteration>, start: nat): nat {
    if tr == [] then start
    else if tr[|tr| - 1].outcome.Rebuilt? then tr[|tr| - 1].now
    else LastRebuildAt(tr[..|tr| - 1], start)
  }

  lemma {:induction false} LastOfRebuildTimes(tr: seq<Iteration>, start: nat)
    ensures var times := RebuildTimes(tr);
            LastRebuildAt(tr, start) == if times == [] then start else times[|times| - 1]
  {
    if tr != [] {
      LastOfRebuildTimes(tr[..|tr| - 1], start);
    }
  }

  lemma LastRebuildAgrees(rs: seq<Rebuild>, tr: seq<Iteration>, start: nat)
    requires AtTimes(rs) == RebuildTimes(tr)
    ensures LastRebuild(rs, start).at == LastRebuildAt(tr, start)
  {
    LastOfRebuildTimes(tr, start);
    if rs != [] {
      assert AtTimes(rs)[|rs| - 1] == rs[|rs| - 1].at;
    }
  }

  lemma AtTimesSnoc(rs: seq<Rebuild>, r: Rebuild)
    ensures AtTimes(rs + [r]) == AtTimes(rs) + [r.at]
  {
    assert (rs + [r])[..|rs|] == rs;
  }

  /** The 10 s cap is never reached: an 8 s wait outlasts the rapid window, so the
      backoff after it is reset. */
  lemma {:induction false} BackoffValues(rs: seq<Rebuild>, start: nat, i: nat)
    requires RebuildsOk(rs, start) && i < |rs|
    ensures rs[i].backoff in {0, 1, 2, 4, 8}
    ensures i + 1 < |rs| ==> RebuildOk(rs[i], rs[i + 1])
  {
    assert RebuildOk(LastRebuild(rs[..i], start), rs[i]);
    if i > 0 {
      BackoffValues(rs, start, i - 1);
    }
    if i + 1 < |rs| {
      assert RebuildOk(LastRebuild(rs[..i + 1], start), rs[i + 1]);
    }
  }

  /** Potential of a backoff, in seconds: what the next gaps still owe. */
  function Potential(backoff: nat): int {
    if backoff == 0 then 0 else if backoff == 1 then 2 else if backoff == 8 then 1 else 3
  }

  lemma GapPays(previous: Rebuild, r: Rebuild)
    requires RebuildOk(previous, r) && previous.backoff in {0, 1, 2, 4, 8}
    ensures r.at - previous.at >= (2 + Potential(previous.backoff) - Potential(r.backoff)) * SECOND
  {
  }

  lemma OneGapPays(rs: seq<Rebuild>, start: nat, i: nat)
    requires RebuildsOk(rs, start) && i + 1 < |rs|
    ensures rs[i + 1].at - rs[i].at >= (2 + Potential(rs[i].backoff) - Potential(rs[i + 1].backoff)) * SECOND
  {
    BackoffValues(rs, start, i);
    GapPays(rs[i], rs[i + 1]);
  }

  lemma {:induction false} GapsPay(rs: seq<Rebuild>, start: nat, i: nat, n: nat)
    requires RebuildsOk(rs, start) && i + n < |rs|
    ensures rs[i + n].at - rs[i].at >= (2 * n + Potential(rs[i].backoff) - Potential(rs[i + n].backoff)) * SECOND
    decreases n
  {
    hide RebuildsOk, Potential;
    if n > 0 {
      GapsPay(rs, start, i, n - 1);
      OneGapPays(rs, start, i + n - 1);
    }
  }

  /** Amortised rebuild bound: any n consecutive gaps between rebuilds take at
      least 2n - 3 seconds. */
  lemma AmortisedRebuildBound(rs: seq<Rebuild>, start: nat, i: nat, n: nat)
    requires RebuildsOk(rs, start) && i + n < |rs|
    ensures rs[i + n].at - rs[i].at >= (2 * n - 3) * 1_000_000
  {
    GapsPay(rs, start, i, n);
    BackoffValues(rs, start, i);
    BackoffValues(rs, start, i + n);
  }

  lemma NoRebuilds()
    ensures RebuildsOk([], 0)
  {
  }

  /** m rounds of gaps of 0, 1 and 5 s, after a first rebuild at 5 s. */
  function Rounds(m: nat): (rs: seq<Rebuild>)
    ensures |rs| == 3 * m + 1
  {
    if m == 0 then [Rebuild(5 * SECOND, 0)]
    else
      var t := (6 * m - 1) * SECOND;
      Rounds(m - 1) + [Rebuild(t, 1)] + [Rebuild(t + 1 * SECOND, 2)] + [Rebuild(t + 6 * SECOND, 0)]
  }

  lemma RoundFollows(rs: seq<Rebuild>, t: nat)
    requires RebuildsOk(rs, 0) && LastRebuild(rs, 0) == Rebuild(t, 0)
    ensures RebuildsOk(rs + [Rebuild(t, 1)] + [Rebuild(t + 1 * SECOND, 2)], 0)
    ensures var round := rs + [Rebuild(t, 1)] + [Rebuild(t + 1 * SECOND, 2)] + [Rebuild(t + 6 * SECOND, 0)];
            RebuildsOk(round, 0) && LastRebuild(round, 0) == Rebuild(t + 6 * SECOND, 0)
  {
    hide RebuildsOk, LastRebuild;
    RebuildsSnoc(rs, 0, Rebuild(t, 1));
    RebuildsSnoc(rs + [Rebuild(t, 1)], 0, Rebuild(t + 1 * SECOND, 2));
    RebuildsSnoc(rs + [Rebuild(t, 1)] + [Rebuild(t + 1 * SECOND, 2)], 0, Rebuild(t + 6 * SECOND, 0));
  }

  lemma {:induction false} RoundsAreRebuilds(m: nat)
    ensures RebuildsOk(Rounds(m), 0) && Rounds(m)[0].at == 5 * SECOND
    ensures LastRebuild(Rounds(m), 0) == Rebuild((6 * m + 5) * SECOND, 0)
  {
    hide RebuildsOk;
    if m == 0 {
      NoRebuilds();
      RebuildsSnoc([], 0, Rebuild(5 * SECOND, 0));
      assert [] + [Rebuild(5 * SECOND, 0)] == Rounds(0);
    } else {
      RoundsAreRebuilds(m - 1);
      RoundFollows(Rounds(m - 1), (6 * m - 1) * SECOND);
    }
  }

  /** The bound is met again and again: for every n = 3m + 2 some run has n gaps in a
      row that take exactly 2n - 3 seconds. */
  lemma RebuildBoundIsTight(m: nat) returns (rs: seq<Rebuild>, n: nat)
    ensures RebuildsOk(rs, 0) && n == 3 * m + 2 && |rs| == n + 1
    ensures rs[n].at - rs[0].at == (2 * n - 3) * 1_000_000
  {
    RoundsAreRebuilds(m);
    var t := (6 * m + 5) * SECOND;
    RoundFollows(Rounds(m), t);
    rs, n := Rounds(m) + [Rebuild(t, 1)] + [Rebuild(t + 1 * SECOND, 2)], 3 * m + 2;
  }

  /** Seconds spent between the first `k` failed attempts to open a pipeline; here
      the wait does grow to the cap. */
  function RetrySeconds(k: nat): nat {
    if k == 0 then 0 else RetrySeconds(k - 1) + RetryBackoff(k - 1)
  }

  function RetryBackoff(k: nat): nat {
    if k == 0 then BACKOFF_MIN else Min(2 * RetryBackoff(k - 1), BACKOFF_MAX)
  }

  /** The retry waits are 1, 2, 4, 8 and then 10 seconds each. */
  lemma {:induction false} RetryWaits(k: nat)
    ensures RetryBackoff(k) ==
              if k == 0 then 1 else if k == 1 then 2 else if k == 2 then 4 else if k == 3 then 8 else 10
    ensures k >= 4 ==> RetrySeconds(k) == 15 + 10 * (k - 4)
  {
    if k > 0 {
      RetryWaits(k - 1);
    }
    if k == 4 {
      RetryWaits(2);
      RetryWaits(1);
    }
  }
}
