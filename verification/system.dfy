// The whole system: one worker per stream of a loaded and validated
// configuration, their datagrams interleaved over a lossy channel, one receiver.
module Systems {
  import opened AppConfigs
  import opened UdpPublishers
  import opened RunLogs
  import opened WorkerTraces
  import opened StreamWorkers
  import opened Receivers
  import opened GapLaws
  import G = GstCaptures
  import Y = YamlHeal

  /** What one worker's run leaves: its trace and the inputs it was made of, when it
      started to publish and when its loop was entered. */
  datatype WorkerRun = WorkerRun(trace: seq<Iteration>, passes: seq<Pass>, start: nat, first: nat)

  /** What a run of this stream, with UDP on, leaves. */
  ghost predicate RanAs(app: AppConfig, cfg: StreamConfig, domain: string, run: WorkerRun) {
    && Disciplined(run.trace, run.start, PeriodUs(app.udp.heartbeatHz))
    && AllGood(cfg, domain, Datagrams(run.trace))
    && Logged(cfg, true, PeriodUs(cfg.detectFps), run.first, run.trace, run.passes)
  }

  /** Every stream has run. */
  ghost predicate Ran(app: AppConfig, domain: string, runs: seq<WorkerRun>) {
    && |runs| == |app.streams|
    && forall v :: 0 <= v < |runs| ==> RanAs(app, app.streams[v], domain, runs[v])
  }

  ghost function Logs(runs: seq<WorkerRun>): (logs: seq<seq<Message>>)
    ensures |logs| == |runs|
    ensures forall v :: 0 <= v < |runs| ==> logs[v] == Datagrams(runs[v].trace)
  {
    seq(|runs|, v requires 0 <= v < |runs| => Datagrams(runs[v].trace))
  }

  function Cameras(app: AppConfig): (ids: seq<string>)
    ensures |ids| == |app.streams|
    ensures forall v :: 0 <= v < |ids| ==> ids[v] == app.streams[v].cameraId
  {
    seq(|app.streams|, v requires 0 <= v < |app.streams| => app.streams[v].cameraId)
  }

  lemma RunsAreWorkerLogs(app: AppConfig, domain: string, runs: seq<WorkerRun>)
    requires Clean(app) && !Y.HasDuplicate(app.streams) && Ran(app, domain, runs)
    ensures WorkerLogs(Logs(runs), Cameras(app))
  {
    var logs, ids := Logs(runs), Cameras(app);
    forall v, i | 0 <= v < |logs| && 0 <= i < |logs[v]|
      ensures Key(logs[v][i]) == ids[v] && logs[v][i].frameId == i + 1
    {
      hide Disciplined, Logged;
      assert RanAs(app, app.streams[v], domain, runs[v]);
      IdsAreConsecutive(runs[v].trace, runs[v].start, PeriodUs(app.udp.heartbeatHz));
      assert GoodMessage(app.streams[v], domain, logs[v][i]);
      CleanGuarantees(app, v, 0);
    }
  }

  /** The whole-system gap law: for every configuration that loads and validates,
      every run of its workers, every interleaving and every loss in order, a
      camera's gap count at the receiver is the number of maximal lost runs between
      its first and last datagram received, at most the number lost, and 0 exactly
      when the ids received are contiguous; and its state depends on no other camera. */
  lemma SystemGapLaw(c: Y.Codec, root: Y.Node, app: AppConfig, domain: string, runs: seq<WorkerRun>,
                     slots: seq<Slot>, es: seq<Event>, w: nat)
    requires Y.Loads(c, root, app) && Clean(app) && Ran(app, domain, runs) && w < |runs|
    requires Fits(Logs(runs), slots) && MessagesIn(es) == Arriving(Logs(runs), slots)
    ensures var id := app.streams[w].cameraId;
            && Solo(es, id).gaps == |LostRuns(Mask(slots, w))| <= |Lost(Mask(slots, w))|
            && (Solo(es, id).gaps == 0 <==> Contiguous(IdsOf(MessagesIn(es), id)))
            && IdsOf(MessagesIn(es), id) == Survivors(FirstIds(Turns(slots, w)), Mask(slots, w))
            && Solo(es, id) == Solo(Own(es, id), id)
  {
    RunsAreWorkerLogs(app, domain, runs);
    GapLaw(Logs(runs), Cameras(app), slots, es, w);
    Demultiplexed(es, app.streams[w].cameraId);
  }

  /** One worker object per stream, each after its own run: their traces are such runs. */
  lemma WorkersRan(app: AppConfig, domain: string, workers: seq<StreamWorker>, runs: seq<WorkerRun>)
    requires |workers| == |runs| == |app.streams|
    requires forall v :: 0 <= v < |workers| ==>
               && workers[v].Steady() && workers[v].Logging() && workers[v].udp != null
               && workers[v].cfg == app.streams[v] && workers[v].domain == domain
               && workers[v].heartbeatPeriodUs == PeriodUs(app.udp.heartbeatHz)
               && workers[v].detectPeriodUs == PeriodUs(app.streams[v].detectFps)
               && runs[v] == WorkerRun(workers[v].trace, workers[v].passLog, workers[v].startUs, workers[v].firstUs)
    ensures Ran(app, domain, runs)
  {
    forall v | 0 <= v < |runs| ensures RanAs(app, app.streams[v], domain, runs[v]) {
      hide Disciplined, Logged;
      workers[v].RunMeans(FramesIn);
    }
  }

  /** The same, of the receiver object: what its table shows for a camera it heard. */
  lemma GapsInTheTable(r: Receiver, app: AppConfig, domain: string, runs: seq<WorkerRun>, slots: seq<Slot>, w: nat)
    requires r.Valid() && Clean(app) && !Y.HasDuplicate(app.streams) && Ran(app, domain, runs) && w < |runs|
    requires Fits(Logs(runs), slots) && MessagesIn(r.events) == Arriving(Logs(runs), slots)
    requires app.streams[w].cameraId in r.cams
    ensures r.cams[app.streams[w].cameraId].gaps == |LostRuns(Mask(slots, w))|
  {
    RunsAreWorkerLogs(app, domain, runs);
    GapLaw(Logs(runs), Cameras(app), slots, r.events, w);
  }

  // ----- the wire contract, end to end -----

  /** Every stream's range gate keeps out what lies behind the camera. */
  predicate GatesAhead(app: AppConfig) {
    forall v :: 0 <= v < |app.streams| ==> app.streams[v].detector.minRange > 0.0
  }

  /** The only things the receiver may note of a datagram of a worker: that it is
      too big, and, of detections only, a capture stamp ahead of the publish stamp,
      by the slack at most. */
  lemma GoodRaisesExactly(cfg: StreamConfig, domain: string, m: Message, bytes: nat, n: Note)
    requires GoodMessage(cfg, domain, m) && cfg.cameraId != "" && domain != "" && cfg.detector.minRange > 0.0
    ensures Raises(m, bytes, n) <==>
              || (n == TooBig(bytes) && bytes > MAX_PAYLOAD)
              || (n == Precedes && !m.heartbeat && 0 < m.publishUs < m.captureUs <= m.publishUs + G.FUTURE_SLACK_US)
  {
    forall i | 0 <= i < |m.detections| ensures !EntryRaises(m.detections[i], m.cameraId, n) {
      assert GoodEntry(cfg, m.detections[i]);
    }
    assert !EntriesRaise(m.detections, m.cameraId, n);
  }

  /** A message some worker of the system sent. */
  ghost predicate FromWorker(app: AppConfig, domain: string, m: Message) {
    exists v :: 0 <= v < |app.streams| && GoodMessage(app.streams[v], domain, m)
  }

  lemma {:induction false} ArrivingAreGood(app: AppConfig, domain: string, runs: seq<WorkerRun>, slots: seq<Slot>)
    requires Ran(app, domain, runs) && Fits(Logs(runs), slots)
    ensures forall m :: m in Arriving(Logs(runs), slots) ==> FromWorker(app, domain, m)
  {
    if slots != [] {
      FitsFront(Logs(runs), slots);
      var front, last := slots[..|slots| - 1], slots[|slots| - 1];
      ArrivingAreGood(app, domain, runs, front);
      var m := Logs(runs)[last.worker][Turns(front, last.worker)];
      assert RanAs(app, app.streams[last.worker], domain, runs[last.worker]);
      assert GoodMessage(app.streams[last.worker], domain, m);
      assert FromWorker(app, domain, m);
    }
  }

  /** Notes a validated system may leave. */
  predicate Harmless(n: Note) {
    n == Precedes || n.TooBig? || n.Undecodable?
  }

  lemma {:induction false} OneDomain(es: seq<Event>, domain: string)
    requires forall m :: m in MessagesIn(es) ==> m.clockDomain == domain
    ensures DomainsOf(es) <= {domain}
  {
    if es != [] {
      var front, e := es[..|es| - 1], es[|es| - 1];
      assert forall m :: m in MessagesIn(front) ==> m in MessagesIn(es);
      assert e.Got? ==> e.m in MessagesIn(es);
      OneDomain(front, domain);
    }
  }

  lemma {:induction false} OnlyHarmless(app: AppConfig, domain: string, es: seq<Event>, n: Note)
    requires Clean(app) && GatesAhead(app) && domain != ""
    requires forall m :: m in MessagesIn(es) ==> FromWorker(app, domain, m)
    ensures Raised(es, n) ==> Harmless(n)
  {
    if es != [] {
      var front, e := es[..|es| - 1], es[|es| - 1];
      assert forall m :: m in MessagesIn(front) ==> m in MessagesIn(es);
      assert e.Got? ==> e.m in MessagesIn(es);
      OnlyHarmless(app, domain, front, n);
      if e.Got? {
        var v :| 0 <= v < |app.streams| && GoodMessage(app.streams[v], domain, e.m);
        CleanGuarantees(app, v, 0);
        GoodRaisesExactly(app.streams[v], domain, e.m, e.bytes, n);
      }
      OneDomain(front, domain);
      SmallerSet(DomainsOf(front), {domain});
    }
  }

  /** End to end: if validate accepts the configuration and every range gate is
      positive, then of all the runs' datagrams, however interleaved and lost, the
      receiver never notes a missing camera or clock domain, a heartbeat that
      carries detections, a wrong vector length, a range or size that is not
      positive, a foreign camera id, or mixed clock domains. */
  lemma EndToEnd(app: AppConfig, domain: string, runs: seq<WorkerRun>, slots: seq<Slot>, es: seq<Event>, n: Note)
    requires Clean(app) && GatesAhead(app) && domain != "" && Ran(app, domain, runs)
    requires Fits(Logs(runs), slots) && MessagesIn(es) == Arriving(Logs(runs), slots)
    ensures Raised(es, n) ==> Harmless(n)
  {
    ArrivingAreGood(app, domain, runs, slots);
    OnlyHarmless(app, domain, es, n);
  }

  // ----- capture stamps ahead of publication -----

  /** Iteration i of worker v sent this detection message late: base + PTS of its frame
      was exact and past the clock at publication. */
  ghost predicate SentLate(runs: seq<WorkerRun>, v: nat, i: nat, m: Message)
    requires v < |runs| && i < |runs[v].trace| == |runs[v].passes|
  {
    && runs[v].trace[i].sent == [m] && !m.heartbeat && m.publishUs > 0
    && Late(runs[v].trace[i], runs[v].passes[i], MonotonicSeen(runs[v].passes[..i + 1]))
  }

  ghost predicate LateSomewhere(runs: seq<WorkerRun>, m: Message)
    requires forall v :: 0 <= v < |runs| ==> |runs[v].trace| == |runs[v].passes|
  {
    exists v: nat, i: nat :: v < |runs| && i < |runs[v].trace| && SentLate(runs, v, i, m)
  }

  lemma RunsAreLogged(app: AppConfig, domain: string, runs: seq<WorkerRun>)
    requires Ran(app, domain, runs)
    ensures forall v :: 0 <= v < |runs| ==> |runs[v].trace| == |runs[v].passes|
  {
    forall v | 0 <= v < |runs| ensures |runs[v].trace| == |runs[v].passes| {
      assert RanAs(app, app.streams[v], domain, runs[v]);
    }
  }

  lemma LateRaises(app: AppConfig, domain: string, runs: seq<WorkerRun>, v: nat, i: nat, m: Message, bytes: nat)
    requires Ran(app, domain, runs) && v < |runs| && i < |runs[v].trace| == |runs[v].passes|
    requires runs[v].trace[i].sent == [m] && !m.heartbeat && m.publishUs > 0
    ensures Raises(m, bytes, Precedes) <==> SentLate(runs, v, i, m)
  {
    hide Disciplined, AllGood, Logged, Late;
    var r := runs[v];
    assert RanAs(app, app.streams[v], domain, r);
    LateExactly(app.streams[v], PeriodUs(app.streams[v].detectFps), r.first, r.trace, r.passes, i);
    PrecedesMeans(m, bytes);
  }

  lemma PrecedesMeans(m: Message, bytes: nat)
    ensures Raises(m, bytes, Precedes) <==> 0 < m.publishUs < m.captureUs
  {
    assert !EntriesRaise(m.detections, m.cameraId, Precedes);
  }

  lemma {:induction false} ArrivingWereSent(app: AppConfig, domain: string, runs: seq<WorkerRun>, slots: seq<Slot>,
                                            k: nat) returns (v: nat, i: nat)
    requires Ran(app, domain, runs) && Fits(Logs(runs), slots) && k < |Arriving(Logs(runs), slots)|
    ensures v < |runs| && i < |runs[v].trace| && runs[v].trace[i].sent == [Arriving(Logs(runs), slots)[k]]
    ensures GoodMessage(app.streams[v], domain, Arriving(Logs(runs), slots)[k])
  {
    hide Disciplined, GoodMessage;
    FitsFront(Logs(runs), slots);
    var front, last := slots[..|slots| - 1], slots[|slots| - 1];
    if k < |Arriving(Logs(runs), front)| {
      v, i := ArrivingWereSent(app, domain, runs, front, k);
    } else {
      v := last.worker;
      assert RanAs(app, app.streams[v], domain, runs[v]);
      i := DatagramIsSent(runs[v].trace, runs[v].start, PeriodUs(app.udp.heartbeatHz), Turns(front, v));
    }
  }

  /** A datagram that arrives is noted for its capture stamp exactly when some worker
      sent it late. */
  lemma ArrivalNotedExactly(app: AppConfig, domain: string, runs: seq<WorkerRun>, slots: seq<Slot>, k: nat, bytes: nat)
    requires Ran(app, domain, runs) && Fits(Logs(runs), slots) && k < |Arriving(Logs(runs), slots)|
    ensures forall v :: 0 <= v < |runs| ==> |runs[v].trace| == |runs[v].passes|
    ensures Raises(Arriving(Logs(runs), slots)[k], bytes, Precedes) <==>
              LateSomewhere(runs, Arriving(Logs(runs), slots)[k])
  {
    hide Ran, RanAs, Raises, GoodEntry, Late;
    RunsAreLogged(app, domain, runs);
    var m := Arriving(Logs(runs), slots)[k];
    var v, i := ArrivingWereSent(app, domain, runs, slots, k);
    PrecedesMeans(m, bytes);
    if !m.heartbeat && m.publishUs > 0 {
      LateRaises(app, domain, runs, v, i, m, bytes);
      forall v': nat, i': nat | v' < |runs| && i' < |runs[v'].trace| && SentLate(runs, v', i', m)
        ensures Raises(m, bytes, Precedes)
      {
        LateRaises(app, domain, runs, v', i', m, bytes);
      }
    }
  }

  lemma {:induction false} PrecedesRaisedBy(es: seq<Event>)
    ensures Raised(es, Precedes) <==> exists k :: 0 <= k < |es| && es[k].Got? && Raises(es[k].m, es[k].bytes, Precedes)
  {
    hide Raises;
    if es != [] {
      var front, n := es[..|es| - 1], |es| - 1;
      PrecedesRaisedBy(front);
      assert forall k :: 0 <= k < n ==> front[k] == es[k];
      if es[n].Got? && Raises(es[n].m, es[n].bytes, Precedes) {
        assert EventRaises(front, es[n], Precedes);
      }
    }
  }

  lemma {:induction false} GotHasIndex(es: seq<Event>, k: nat) returns (j: nat)
    requires k < |es| && es[k].Got?
    ensures j < |MessagesIn(es)| && MessagesIn(es)[j] == es[k].m
  {
    var n := |es| - 1;
    if k < n {
      j := GotHasIndex(es[..n], k);
    } else {
      j := |MessagesIn(es[..n])|;
    }
  }

  /** The receiver notes a capture stamp past its publication exactly when some message
      that arrived was a detection whose frame carried an exact base + PTS past the
      clock at its publication; replayed files are the case the source names. */
  lemma LateNotedExactly(app: AppConfig, domain: string, runs: seq<WorkerRun>, slots: seq<Slot>, es: seq<Event>)
    requires Ran(app, domain, runs) && Fits(Logs(runs), slots) && MessagesIn(es) == Arriving(Logs(runs), slots)
    ensures forall v :: 0 <= v < |runs| ==> |runs[v].trace| == |runs[v].passes|
    ensures Raised(es, Precedes) <==> exists k :: 0 <= k < |es| && es[k].Got? && LateSomewhere(runs, es[k].m)
  {
    hide Ran, Raises, Raised, LateSomewhere, Fits, MessagesIn, Arriving;
    RunsAreLogged(app, domain, runs);
    PrecedesRaisedBy(es);
    forall k | 0 <= k < |es| && es[k].Got?
      ensures Raises(es[k].m, es[k].bytes, Precedes) <==> LateSomewhere(runs, es[k].m)
    {
      var j := GotHasIndex(es, k);
      ArrivalNotedExactly(app, domain, runs, slots, j, es[k].bytes);
    }
  }

  /** And it does happen: a validated stream's run sends a datagram which the receiver,
      hearing nothing else, notes. */
  method LateStampNoted(domain: string, offset: int, bytes: nat) returns (w: StreamWorker)
    ensures w.Steady() && w.Logging() && w.udp != null && |w.udp.sent| == 1
    ensures Clean(AppConfig([w.cfg], REPLAY_UDP, REPLAY_LOG))
    ensures Raised([Got(w.udp.sent[0], bytes)], Precedes)
  {
    hide StreamWorker.Steady, StreamWorker.Logging, Clean, EntriesRaise;
    w := AheadOfPublication(domain, offset);
    ghost var e := Got(w.udp.sent[0], bytes);
    RaisedSnoc([], e, Precedes);
    assert [] + [e] == [e];
    PrecedesMeans(w.udp.sent[0], bytes);
  }
}
