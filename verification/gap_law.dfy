// What the receiver's gap counter means: datagrams of several workers, in any
// interleaving, over a channel that loses but never reorders
// (tools/recv_fiducial.py, src/stream_worker.cpp).
module GapLaws {
  import opened Wrappers
  import opened UdpPublishers
  import opened Receivers

  // ----- one camera -----

  /** Every id is the one before it plus one. */
  ghost predicate Contiguous(ids: seq<int>) {
    forall i :: 0 < i < |ids| ==> ids[i] == ids[i - 1] + 1
  }

  /** How often an id is not the one before it plus one. */
  function GapCount(ids: seq<int>): nat {
    if |ids| < 2 then 0
    else GapCount(ids[..|ids| - 1]) + if ids[|ids| - 1] != ids[|ids| - 2] + 1 then 1 else 0
  }

  lemma GapCountSnoc(ids: seq<int>, id: int)
    ensures GapCount(ids + [id]) == GapCount(ids) + if ids != [] && id != ids[|ids| - 1] + 1 then 1 else 0
  {
    assert (ids + [id])[..|ids|] == ids;
  }

  lemma {:induction false} NoGapsExactly(ids: seq<int>)
    ensures GapCount(ids) == 0 <==> Contiguous(ids)
  {
    if |ids| >= 2 {
      var front := ids[..|ids| - 1];
      NoGapsExactly(front);
      assert forall i :: 0 <= i < |front| ==> front[i] == ids[i];
    }
  }

  /** The messages that decoded, in order of arrival. */
  function MessagesIn(es: seq<Event>): seq<Message> {
    if es == [] then [] else MessagesIn(es[..|es| - 1]) + if es[|es| - 1].Got? then [es[|es| - 1].m] else []
  }

  /** Ids of one camera's messages. */
  function IdsOf(ms: seq<Message>, camera: string): seq<int> {
    if ms == [] then []
    else IdsOf(ms[..|ms| - 1], camera) + if Key(ms[|ms| - 1]) == camera then [ms[|ms| - 1].frameId] else []
  }

  lemma IdsOfConcat(ms: seq<Message>, more: seq<Message>, camera: string)
    requires |more| <= 1
    ensures IdsOf(ms + more, camera) ==
              IdsOf(ms, camera) + if more != [] && Key(more[0]) == camera then [more[0].frameId] else []
  {
    if more == [] {
      assert ms + more == ms;
    } else {
      assert (ms + more)[..|ms|] == ms;
    }
  }

  /** The gap counter of a camera counts the gaps in the ids of its own datagrams. */
  lemma {:induction false} SoloCountsGaps(es: seq<Event>, camera: string)
    ensures var ids := IdsOf(MessagesIn(es), camera);
            && Solo(es, camera).gaps == GapCount(ids)
            && Solo(es, camera).lastFrameId == if ids == [] then None else Some(ids[|ids| - 1])
  {
    if es != [] {
      var front, e := es[..|es| - 1], es[|es| - 1];
      SoloCountsGaps(front, camera);
      IdsOfConcat(MessagesIn(front), if e.Got? then [e.m] else [], camera);
      if e.Got? && Key(e.m) == camera {
        GapCountSnoc(IdsOf(MessagesIn(front), camera), e.m.frameId);
      } else {
        assert IdsOf(MessagesIn(front), camera) + [] == IdsOf(MessagesIn(front), camera);
      }
    }
  }

  /** The events that concern one camera: its own datagrams and the summaries. */
  function Own(es: seq<Event>, camera: string): seq<Event> {
    if es == [] then []
    else
      Own(es[..|es| - 1], camera)
      + if es[|es| - 1].Summary? || (es[|es| - 1].Got? && Key(es[|es| - 1].m) == camera) then [es[|es| - 1]] else []
  }

  /** Demultiplexing: a camera's state depends on its own datagrams only. */
  lemma {:induction false} Demultiplexed(es: seq<Event>, camera: string)
    ensures Solo(es, camera) == Solo(Own(es, camera), camera)
  {
    if es != [] {
      var front, e := es[..|es| - 1], es[|es| - 1];
      Demultiplexed(front, camera);
      if e.Summary? || (e.Got? && Key(e.m) == camera) {
        SoloSnoc(Own(front, camera), e, camera);
      } else {
        assert Own(es, camera) == Own(front, camera);
      }
    }
  }

  // ----- a lossy channel in order -----

  /** What arrives of `sent` when `kept` says which datagrams get through. */
  function Survivors(sent: seq<int>, kept: seq<bool>): seq<int>
    requires |sent| == |kept|
  {
    if sent == [] then []
    else
      Survivors(sent[..|sent| - 1], kept[..|kept| - 1]) + if kept[|kept| - 1] then [sent[|sent| - 1]] else []
  }

  function FirstIds(n: nat): (ids: seq<int>)
    ensures |ids| == n && forall i :: 0 <= i < n ==> ids[i] == i + 1
  {
    seq(n, i => i + 1)
  }

  /** Something kept at or after position `i`. */
  ghost predicate KeptFrom(kept: seq<bool>, i: int) {
    exists j :: i <= j < |kept| && 0 <= j && kept[j]
  }

  /** Where the maximal runs of lost datagrams between the first and the last one
      received start. */
  ghost function LostRuns(kept: seq<bool>): set<int> {
    set i | 0 < i < |kept| && kept[i - 1] && !kept[i] && KeptFrom(kept, i)
  }

  ghost function Lost(kept: seq<bool>): set<int> {
    set i | 0 <= i < |kept| && !kept[i]
  }

  /** The position of the last datagram received, or -1. */
  function LastKept(kept: seq<bool>): (r: int)
    ensures -1 <= r < |kept|
    ensures r >= 0 ==> kept[r]
    ensures forall i :: r < i < |kept| ==> !kept[i]
  {
    if kept == [] then -1 else if kept[|kept| - 1] then |kept| - 1 else LastKept(kept[..|kept| - 1])
  }

  lemma RunsWhenLost(front: seq<bool>)
    ensures LostRuns(front + [false]) == LostRuns(front)
  {
    var all := front + [false];
    forall i | 0 < i < |front| && KeptFrom(front, i) ensures KeptFrom(all, i) {
      var j :| i <= j < |front| && 0 <= j && front[j];
      assert all[j];
    }
    forall i | KeptFrom(all, i) ensures KeptFrom(front, i) {
      var j :| i <= j < |all| && 0 <= j && all[j];
      assert front[j];
    }
  }

  lemma KeptFromExactly(kept: seq<bool>, i: int)
    requires i >= 0
    ensures KeptFrom(kept, i) <==> i <= LastKept(kept)
  {
    if i <= LastKept(kept) {
      assert kept[LastKept(kept)];
    }
  }

  /** Receiving one more closes the run of losses since the last one, if any. */
  lemma RunWhenKept(front: seq<bool>, i: int)
    ensures i in LostRuns(front + [true]) <==> i in LostRuns(front) || (i == LastKept(front) + 1 && 0 < i < |front|)
    ensures LastKept(front) + 1 !in LostRuns(front)
  {
    hide LostRuns, LastKept;
    var all := front + [true];
    LastIsKept(front);
    RunAt(all, i);
    RunAt(front, i);
    RunAt(front, LastKept(front) + 1);
    assert 0 < i < |front| ==> all[i] == front[i] && all[i - 1] == front[i - 1];
  }

  lemma LastIsKept(front: seq<bool>)
    ensures LastKept(front + [true]) == |front|
  {
  }

  /** A lost run starts where a kept datagram is followed by a lost one, before the
      last one received. */
  lemma RunAt(kept: seq<bool>, i: int)
    ensures i in LostRuns(kept) <==> 0 < i <= LastKept(kept) && kept[i - 1] && !kept[i]
  {
    hide LastKept;
    if i >= 0 {
      KeptFromExactly(kept, i);
    }
  }

  lemma RunsWhenKept(front: seq<bool>)
    ensures LostRuns(front + [true]) ==
              LostRuns(front) + if 0 <= LastKept(front) < |front| - 1 then {LastKept(front) + 1} else {}
    ensures LastKept(front) + 1 !in LostRuns(front)
  {
    hide LostRuns, LastKept;
    forall i: int
      ensures i in LostRuns(front + [true]) <==> i in LostRuns(front) || (i == LastKept(front) + 1 && 0 < i < |front|)
    {
      RunWhenKept(front, i);
    }
    RunWhenKept(front, 0);
  }

  lemma {:induction false} LastSurvivor(kept: seq<bool>)
    ensures var got := Survivors(FirstIds(|kept|), kept);
            if LastKept(kept) < 0 then got == [] else got != [] && got[|got| - 1] == LastKept(kept) + 1
  {
    if kept != [] {
      var front := kept[..|kept| - 1];
      assert FirstIds(|kept|)[..|front|] == FirstIds(|front|);
      LastSurvivor(front);
    }
  }

  lemma NoRuns()
    ensures LostRuns([]) == {}
  {
  }

  /** Over ids 1..n, the gaps counted are the maximal lost runs between the first
      and the last datagram received. */
  lemma {:induction false} GapsAreLostRuns(kept: seq<bool>)
    ensures GapCount(Survivors(FirstIds(|kept|), kept)) == |LostRuns(kept)|
  {
    hide LostRuns, LastKept;
    if kept != [] {
      var front := kept[..|kept| - 1];
      var got := Survivors(FirstIds(|front|), front);
      assert FirstIds(|kept|)[..|front|] == FirstIds(|front|);
      GapsAreLostRuns(front);
      if kept[|kept| - 1] {
        assert kept == front + [true];
        RunsWhenKept(front);
        LastSurvivor(front);
        GapCountSnoc(got, |kept|);
      } else {
        assert kept == front + [false];
        RunsWhenLost(front);
        assert got + [] == got;
      }
    } else {
      NoRuns();
    }
  }

  lemma {:induction false} SmallerSet<T>(a: set<T>, b: set<T>)
    requires a <= b
    ensures |a| <= |b|
  {
    if a != {} {
      var x :| x in a;
      SmallerSet(a - {x}, b - {x});
    }
  }

  /** No more gaps than datagrams lost. */
  lemma RunsAtMostLost(kept: seq<bool>)
    ensures |LostRuns(kept)| <= |Lost(kept)|
  {
    SmallerSet(LostRuns(kept), Lost(kept));
  }

  // ----- several workers, interleaved -----

  /** One datagram leaves some worker, and gets through or not. */
  datatype Slot = Slot(worker: nat, kept: bool)

  /** How many datagrams of worker `w` have left. */
  function Turns(slots: seq<Slot>, w: nat): nat {
    if slots == [] then 0 else Turns(slots[..|slots| - 1], w) + if slots[|slots| - 1].worker == w then 1 else 0
  }

  /** Which of worker w's datagrams got through. */
  function Mask(slots: seq<Slot>, w: nat): (kept: seq<bool>)
    ensures |kept| == Turns(slots, w)
  {
    if slots == [] then []
    else Mask(slots[..|slots| - 1], w) + if slots[|slots| - 1].worker == w then [slots[|slots| - 1].kept] else []
  }

  /** Every worker sends its own log in order. */
  ghost predicate Fits(logs: seq<seq<Message>>, slots: seq<Slot>) {
    && (forall i :: 0 <= i < |slots| ==> slots[i].worker < |logs|)
    && (forall w :: 0 <= w < |logs| ==> Turns(slots, w) <= |logs[w]|)
  }

  lemma FitsFront(logs: seq<seq<Message>>, slots: seq<Slot>)
    requires Fits(logs, slots) && slots != []
    ensures Fits(logs, slots[..|slots| - 1])
    ensures var last := slots[|slots| - 1];
            last.worker < |logs| && Turns(slots[..|slots| - 1], last.worker) < |logs[last.worker]|
  {
    var front := slots[..|slots| - 1];
    forall w | 0 <= w < |logs| ensures Turns(front, w) <= |logs[w]| {
      assert Turns(slots, w) <= |logs[w]|;
    }
    assert slots[|slots| - 1].worker < |logs|;
    assert Turns(slots, slots[|slots| - 1].worker) <= |logs[slots[|slots| - 1].worker]|;
  }

  /** What the receiver sees. */
  ghost function Arriving(logs: seq<seq<Message>>, slots: seq<Slot>): seq<Message>
    requires Fits(logs, slots)
  {
    if slots == [] then []
    else
      FitsFront(logs, slots);
      var front, last := slots[..|slots| - 1], slots[|slots| - 1];
      Arriving(logs, front) + if last.kept then [logs[last.worker][Turns(front, last.worker)]] else []
  }

  /** Ids 1..k under each worker's own camera id, all of these different. */
  ghost predicate WorkerLogs(logs: seq<seq<Message>>, cameras: seq<string>) {
    && |logs| == |cameras|
    && (forall v, i :: 0 <= v < |logs| && 0 <= i < |logs[v]| ==>
        Key(logs[v][i]) == cameras[v] && logs[v][i].frameId == i + 1)
    && (forall v, w :: 0 <= v < w < |cameras| ==> cameras[v] != cameras[w])
  }

  /** However the logs are interleaved, the ids of camera `w` that arrive are the
      survivors of its own. */
  lemma {:induction false} OwnSurvivors(logs: seq<seq<Message>>, cameras: seq<string>, slots: seq<Slot>, w: nat)
    requires WorkerLogs(logs, cameras) && Fits(logs, slots) && w < |logs|
    ensures IdsOf(Arriving(logs, slots), cameras[w]) == Survivors(FirstIds(Turns(slots, w)), Mask(slots, w))
  {
    if slots != [] {
      FitsFront(logs, slots);
      var front, last := slots[..|slots| - 1], slots[|slots| - 1];
      var n := Turns(front, last.worker);
      OwnSurvivors(logs, cameras, front, w);
      IdsOfConcat(Arriving(logs, front), if last.kept then [logs[last.worker][n]] else [], cameras[w]);
      if last.worker == w {
        var mask := Mask(front, w) + [last.kept];
        assert mask[..n] == Mask(front, w);
        assert FirstIds(n + 1)[..n] == FirstIds(n);
        assert Mask(slots, w) == mask;
      } else {
        assert Mask(slots, w) == Mask(front, w);
        assert cameras[last.worker] != cameras[w];
      }
    }
  }

  /** The gap law: for workers with distinct cameras, any interleaving and any loss,
      with summaries and undecodable datagrams anywhere, the receiver's gap count for
      a camera is the number of maximal lost runs between the first and the last of
      its datagrams to arrive; at most the number lost; and zero exactly when the
      ids received are contiguous. */
  lemma GapLaw(logs: seq<seq<Message>>, cameras: seq<string>, slots: seq<Slot>, es: seq<Event>, w: nat)
    requires WorkerLogs(logs, cameras) && Fits(logs, slots) && w < |logs|
    requires MessagesIn(es) == Arriving(logs, slots)
    ensures Solo(es, cameras[w]).gaps == |LostRuns(Mask(slots, w))| <= |Lost(Mask(slots, w))|
    ensures Solo(es, cameras[w]).gaps == 0 <==> Contiguous(IdsOf(MessagesIn(es), cameras[w]))
    ensures IdsOf(MessagesIn(es), cameras[w]) == Survivors(FirstIds(Turns(slots, w)), Mask(slots, w))
  {
    SoloCountsGaps(es, cameras[w]);
    OwnSurvivors(logs, cameras, slots, w);
    GapsAreLostRuns(Mask(slots, w));
    RunsAtMostLost(Mask(slots, w));
    NoGapsExactly(IdsOf(MessagesIn(es), cameras[w]));
  }
}
