// The acceptance loop of guided_capture (tools/calibrate_camera.py): which views
// a guided run keeps, over any sequence of frames and operator commands.
module GuidedCaptures {
  import opened Wrappers
  import opened BoardFit
  import FitTargets
  import opened TargetQueues

  /** An accepted sample: the corners kept, and what was asked of them. */
  datatype View = View(corners: seq<Point>, target: nat, rect: Rect, fill: real, threshold: real, at: real)

  /** One pass of the loop: operator commands, what the chessboard search found,
      and the two clocks the loop reads. */
  datatype Frame = Frame(stop: bool, skip: bool, found: Option<seq<Point>>, mono: real, now: real)

  /** The fixed part of a session. */
  datatype Setup = Setup(targets: seq<Target>, width: int, height: int, k: Pattern, settle: real)

  predicate HasCorners(corners: seq<Point>, k: Pattern) {
    k.cols >= 1 && k.rows >= 1 && |corners| == k.cols * k.rows
  }

  // ----- what a run may keep -----

  /** A kept view lies in its target's box and fills it to the threshold asked for,
      which is at least 15 percent and at most what the table asks. */
  ghost predicate GoodView(s: Setup, v: View) {
    && v.target < |s.targets|
    && v.rect == PixelRect(s.targets[v.target], s.width, s.height)
    && HasCorners(v.corners, s.k)
    && Contains(v.rect, v.corners)
    && v.fill == ViewFill(v.corners, s.k, v.rect)
    && FILL_FLOOR as real <= v.threshold <= v.fill <= 100.0
    && v.threshold <= s.targets[v.target].fill as real
  }

  /** The threshold asked for is the table's, unless the target's was lowered. */
  ghost predicate Honoured(s: Setup, views: seq<View>, lowered: seq<nat>) {
    forall i :: 0 <= i < |views| ==> AsAsked(s, views[i], lowered)
  }

  ghost predicate AsAsked(s: Setup, v: View, lowered: seq<nat>) {
    v.target < |s.targets| && (v.threshold == s.targets[v.target].fill as real || v.target in lowered)
  }

  /** Every view is good; views come in target order, `settle` apart. */
  ghost predicate GoodViews(s: Setup, views: seq<View>, index: nat, lastAccept: real) {
    && (forall i {:trigger GoodView(s, views[i])} :: 0 <= i < |views| ==> GoodView(s, views[i]))
    && (forall i :: 0 <= i < |views| ==> views[i].target <= index)
    && (forall i, j :: 0 <= i < j < |views| ==> views[i].target <= views[j].target)
    && (forall i :: 0 < i < |views| ==> views[i].at - views[i - 1].at >= s.settle)
    && (if views == [] then lastAccept == 0.0 else lastAccept == views[|views| - 1].at && views[0].at >= s.settle)
  }

  function CountFor(views: seq<View>, target: nat): nat {
    if views == [] then 0
    else CountFor(views[..|views| - 1], target) + if views[|views| - 1].target == target then 1 else 0
  }

  /** Views kept plus samples forfeited are the samples taken, target by target:
      no target yields more views than it asked for. */
  ghost predicate Tally(targets: seq<Target>, views: seq<View>, forfeited: nat, taken: int, index: nat,
                        remaining: int) {
    && taken == |views| + forfeited
    && (index < |targets| ==> CountFor(views, index) + remaining == targets[index].samples)
    && (forall i :: 0 <= i < index && i < |targets| ==> CountFor(views, i) <= targets[i].samples)
  }

  /** Thresholds lowered, in target order: each target's at most once, and the
      current target's exactly when `relaxed`. */
  ghost predicate LoweredOnce(lowered: seq<nat>, index: nat, relaxed: bool) {
    && (forall i, j :: 0 <= i < j < |lowered| ==> lowered[i] < lowered[j])
    && (forall i :: 0 <= i < |lowered| ==> lowered[i] <= index)
    && (relaxed <==> index in lowered)
  }

  // ----- what one frame yields -----

  /** The view a frame yields, when `a` is the attempt it meets. */
  function Taken(s: Setup, adaptAfter: real, a: Attempt, lastAccept: real, frame: Frame): Option<View>
    requires frame.found.Some? ==> HasCorners(frame.found.value, s.k)
  {
    if frame.found.Some? && Contains(a.rect, frame.found.value) then
      var fill := ViewFill(frame.found.value, s.k, a.rect);
      var asked := Eased(Noted(a, true, fill), adaptAfter, frame.mono).fillPct;
      if fill >= asked && frame.now - lastAccept >= s.settle then
        Some(View(frame.found.value, a.index, a.rect, fill, asked, frame.now))
      else None
    else None
  }

  function Added(v: Option<View>): seq<View> {
    if v.Some? then [v.value] else []
  }

  // ----- what a run makes of its frames -----

  /** Where a session stands between two passes; without an attempt at the end. */
  datatype Standing = Standing(
    index: nat, remaining: int, attempt: Option<Attempt>, views: seq<View>, lastAccept: real, forfeited: int)

  predicate Readable(k: Pattern, frame: Frame) {
    frame.found.Some? ==> HasCorners(frame.found.value, k)
  }

  function MovedOn(s: Setup, st: Standing, now: real): Standing {
    var index := st.index + 1;
    if index < |s.targets| then
      st.(index := index, remaining := s.targets[index].samples,
          attempt := Some(Fresh(s.targets, s.width, s.height, index, now)))
    else st.(index := index, remaining := 0, attempt := None)
  }

  function Skipped(s: Setup, st: Standing, now: real): Standing {
    MovedOn(s, st.(forfeited := st.forfeited + st.remaining), now)
  }

  /** The attempt after a frame: what was seen, and the relaxation that may follow. */
  function Attempted(s: Setup, adaptAfter: real, a: Attempt, frame: Frame): Attempt
    requires Readable(s.k, frame)
  {
    var inside := frame.found.Some? && Contains(a.rect, frame.found.value);
    var fill := if inside then ViewFill(frame.found.value, s.k, a.rect) else 0.0;
    Eased(Noted(a, inside, fill), adaptAfter, frame.mono)
  }

  function KeptBy(s: Setup, st: Standing, v: View, a: Attempt, mono: real): Standing {
    var kept := st.(views := st.views + [v], lastAccept := v.at, remaining := st.remaining - 1, attempt := Some(a));
    if kept.remaining <= 0 then MovedOn(s, kept, mono) else kept
  }

  function Sampled(s: Setup, adaptAfter: real, st: Standing, frame: Frame): Standing
    requires Readable(s.k, frame) && st.attempt.Some?
  {
    var a := Attempted(s, adaptAfter, st.attempt.value, frame);
    var v := Taken(s, adaptAfter, st.attempt.value, st.lastAccept, frame);
    if v.Some? then KeptBy(s, st, v.value, a, frame.mono) else st.(attempt := Some(a))
  }

  /** One pass: a stop or the end changes nothing; a skip comes before the frame. */
  function Passed(s: Setup, adaptAfter: real, st: Standing, frame: Frame): Standing
    requires Readable(s.k, frame)
  {
    if frame.stop || st.attempt.None? then st
    else
      var next := if frame.skip then Skipped(s, st, frame.mono) else st;
      if next.attempt.None? then next else Sampled(s, adaptAfter, next, frame)
  }

  /** All passes up to a stop or the end. */
  function PassedAll(s: Setup, adaptAfter: real, st: Standing, frames: seq<Frame>): Standing
    requires forall i :: 0 <= i < |frames| ==> Readable(s.k, frames[i])
    decreases frames
  {
    if frames == [] || frames[0].stop || st.attempt.None? then st
    else PassedAll(s, adaptAfter, Passed(s, adaptAfter, st, frames[0]), frames[1..])
  }

  /** After its first pass a run is over, or goes on with the other frames. */
  lemma FirstPassed(s: Setup, adaptAfter: real, st: Standing, frames: seq<Frame>)
    requires frames != [] && forall i :: 0 <= i < |frames| ==> Readable(s.k, frames[i])
    ensures var next := Passed(s, adaptAfter, st, frames[0]);
            PassedAll(s, adaptAfter, st, frames)
              == if frames[0].stop || next.attempt.None? then next else PassedAll(s, adaptAfter, next, frames[1..])
  {
    hide Skipped, Sampled, Readable;
  }

  lemma NothingPassed(s: Setup, adaptAfter: real, st: Standing)
    ensures PassedAll(s, adaptAfter, st, []) == st
  {
  }

  /** A run over more frames goes on from where a run over the first ones stood,
      unless they held a stop. */
  lemma {:induction false} PassedInTurn(s: Setup, adaptAfter: real, st: Standing, front: seq<Frame>, rest: seq<Frame>)
    requires forall i :: 0 <= i < |front| ==> Readable(s.k, front[i]) && !front[i].stop
    requires forall i :: 0 <= i < |rest| ==> Readable(s.k, rest[i])
    ensures PassedAll(s, adaptAfter, st, front + rest) ==
              PassedAll(s, adaptAfter, PassedAll(s, adaptAfter, st, front), rest)
    decreases front
  {
    if front == [] {
      assert front + rest == rest;
    } else if st.attempt.Some? {
      assert (front + rest)[1..] == front[1..] + rest;
      PassedInTurn(s, adaptAfter, Passed(s, adaptAfter, st, front[0]), front[1..], rest);
    }
  }

  /** A settled view in the box is kept when it meets the threshold shown before the
      frame, and one that is kept meets it unless the threshold is lowered on it. */
  lemma MeetingTheThresholdIsKept(s: Setup, adaptAfter: real, a: Attempt, lastAccept: real, frame: Frame)
    requires frame.found.Some? && HasCorners(frame.found.value, s.k) && Contains(a.rect, frame.found.value)
    requires frame.now - lastAccept >= s.settle
    ensures ViewFill(frame.found.value, s.k, a.rect) >= a.fillPct ==> Taken(s, adaptAfter, a, lastAccept, frame).Some?
    ensures Taken(s, adaptAfter, a, lastAccept, frame).Some? && ViewFill(frame.found.value, s.k, a.rect) < a.fillPct ==>
      && adaptAfter > 0.0 && !a.relaxed && frame.mono - a.start >= adaptAfter && a.hits + 1 >= RELAX_HITS
      && ViewFill(frame.found.value, s.k, a.rect) >= MaxReal(FILL_FLOOR as real, a.best - 1.0)
  {
  }

  lemma {:induction false} NoneBeyond(views: seq<View>, target: nat)
    requires forall i :: 0 <= i < |views| ==> views[i].target < target
    ensures CountFor(views, target) == 0
  {
    if views != [] {
      NoneBeyond(views[..|views| - 1], target);
    }
  }

  lemma GoodViewsGrow(s: Setup, views: seq<View>, index: nat, lastAccept: real, v: View)
    requires GoodViews(s, views, index, lastAccept) && GoodView(s, v) && v.target == index
    requires v.at - lastAccept >= s.settle
    ensures GoodViews(s, views + [v], index, v.at)
  {
  }

  lemma TallyAfterView(targets: seq<Target>, views: seq<View>, forfeited: nat, taken: int, index: nat, remaining: int,
                       v: View)
    requires Tally(targets, views, forfeited, taken, index, remaining) && v.target == index < |targets|
    ensures Tally(targets, views + [v], forfeited, taken + 1, index, remaining - 1)
  {
    assert (views + [v])[..|views|] == views;
    forall i | 0 <= i < index && i < |targets| ensures CountFor(views + [v], i) == CountFor(views, i) {
    }
  }

  lemma TallyAfterMove(s: Setup, views: seq<View>, forfeited: nat, taken: int, index: nat, remaining: int,
                       lastAccept: real)
    requires Tally(s.targets, views, forfeited, taken, index, remaining) && index < |s.targets| && remaining >= 0
    requires GoodViews(s, views, index, lastAccept)
    ensures Tally(s.targets, views, forfeited + remaining, taken + remaining, index + 1,
                  if index + 1 < |s.targets| then s.targets[index + 1].samples else 0)
    ensures GoodViews(s, views, index + 1, lastAccept)
  {
    NoneBeyond(views, index + 1);
  }

  /** A kept view leaves the session good, wherever the queue then stands. */
  lemma KeptLeavesGood(s: Setup, views: seq<View>, v: View, forfeited: nat, taken: int, index: nat, remaining: int,
                       lastAccept: real, index': nat, remaining': int)
    requires GoodViews(s, views, index, lastAccept)
    requires GoodView(s, v) && v.target == index && v.at - lastAccept >= s.settle
    requires Tally(s.targets, views, forfeited, taken, index, remaining) && index < |s.targets| && remaining >= 1
    requires remaining > 1 ==> index' == index && remaining' == remaining - 1
    requires remaining == 1 ==> index' == index + 1
    requires remaining == 1 && index' < |s.targets| ==> remaining' == s.targets[index'].samples
    ensures GoodViews(s, views + [v], index', v.at)
    ensures Tally(s.targets, views + [v], forfeited, taken + 1, index', remaining')
  {
    GoodViewsGrow(s, views, index, lastAccept, v);
    TallyAfterView(s.targets, views, forfeited, taken, index, remaining, v);
    if remaining == 1 {
      TallyAfterMove(s, views + [v], forfeited, taken + 1, index, 0, v.at);
    }
  }

  lemma ViewIsGood(s: Setup, v: View)
    requires v.target < |s.targets| && v.rect == PixelRect(s.targets[v.target], s.width, s.height)
    requires HasCorners(v.corners, s.k) && Contains(v.rect, v.corners)
    requires v.fill == ViewFill(v.corners, s.k, v.rect) && v.fill >= v.threshold
    requires FILL_FLOOR as real <= v.threshold <= s.targets[v.target].fill as real
    ensures GoodView(s, v)
  {
    ViewFillIsPercentage(v.corners, s.k, v.rect);
  }

  lemma HonouredSnoc(s: Setup, views: seq<View>, v: View, lowered: seq<nat>)
    requires Honoured(s, views, lowered) && AsAsked(s, v, lowered)
    ensures Honoured(s, views + [v], lowered)
  {
  }

  lemma HonouredGrows(s: Setup, views: seq<View>, lowered: seq<nat>, index: nat)
    requires Honoured(s, views, lowered)
    ensures Honoured(s, views, lowered + [index])
  {
    forall i | 0 <= i < |views| ensures AsAsked(s, views[i], lowered + [index]) {
      assert AsAsked(s, views[i], lowered);
    }
  }

  /** Progress over a well-formed table never falls. */
  lemma NeverFalls(before: int, after: int, total: int, targets: seq<Target>)
    requires AllWellFormed(targets) && total == Samples(targets) && before <= after
    ensures (if total != 0 then before as real / total as real else 1.0)
         <= (if total != 0 then after as real / total as real else 1.0)
  {
    SamplesCoverTargets(targets);
    if total > 0 {
      ProgressNeverFalls(before, after, total);
    }
  }

  class GuidedCapture {
    const queue: TargetQueue
    const adaptAfter: real
    const settle: real

    var lastAccept: real
    var views: seq<View>

    /** Samples given up by skipping, and the targets whose threshold was lowered. */
    ghost var forfeited: nat
    ghost var lowered: seq<nat>

    ghost function Session(): Setup {
      Setup(queue.targets, queue.width, queue.height, queue.k, settle)
    }

    ghost predicate Valid()
      reads this, queue
    {
      && queue.Valid() && AllWellFormed(queue.targets) && queue.k.cols >= 1 && queue.k.rows >= 1
      && GoodViews(Session(), views, queue.index, lastAccept)
      && Tally(queue.targets, views, forfeited, queue.taken, queue.index, queue.remaining)
      && LoweredOnce(lowered, queue.index, !queue.Done() && queue.relaxed)
      && Honoured(Session(), views, lowered)
    }

    /** A session over a queue just made from fitted targets. */
    constructor (queue: TargetQueue, adaptAfter: real, settle: real)
      requires queue.Valid() && AllWellFormed(queue.targets) && queue.k.cols >= 1 && queue.k.rows >= 1
      requires queue.taken == 0 && queue.index == 0 && !queue.relaxed
      requires !queue.Done() ==> queue.remaining == queue.targets[0].samples
      ensures Valid() && this.queue == queue && this.settle == settle && this.adaptAfter == adaptAfter
      ensures views == [] && forfeited == 0 && lowered == [] && lastAccept == 0.0
    {
      this.queue, this.adaptAfter, this.settle := queue, adaptAfter, settle;
      lastAccept, views, forfeited, lowered := 0.0, [], 0, [];
    }

    ghost function Stands(): Standing
      reads this, queue
    {
      if queue.Done() then Standing(queue.index, 0, None, views, lastAccept, forfeited)
      else Standing(queue.index, queue.remaining, Some(queue.Current()), views, lastAccept, forfeited)
    }

    /** The threshold in force is between the floor and the table's, and below the
        table's only where it was lowered. */
    lemma ThresholdInForce()
      requires Valid() && !queue.Done()
      ensures FILL_FLOOR as real <= queue.fillPct <= queue.targets[queue.index].fill as real
      ensures queue.fillPct == queue.targets[queue.index].fill as real || queue.index in lowered
      ensures queue.remaining >= 1
    {
      assert FitTargets.WellFormed(queue.targets[queue.index]);
    }

    /** The acceptance test of the loop. */
    predicate Accepts(inside: bool, fill: real, now: real)
      reads this, queue
    {
      inside && fill >= queue.fillPct && now - lastAccept >= settle
    }

    method Skip(mono: real)
      requires Valid() && !queue.Done()
      modifies this`forfeited, queue
      ensures Valid()
      ensures queue.index == old(queue.index) + 1 && queue.taken > old(queue.taken)
      ensures Stands() == Skipped(Session(), old(Stands()), mono)
      ensures !queue.Done() ==> queue.tStart == mono && queue.observed == []
    {
      hide GoodViews, Honoured, AllWellFormed, TargetQueue.Loaded, Fresh;
      ThresholdInForce();
      TallyAfterMove(Session(), views, forfeited, queue.taken, queue.index, queue.remaining, lastAccept);
      forfeited := forfeited + queue.remaining;
      queue.Advance(true, mono);
    }

    method Relax(mono: real)
      requires Valid() && !queue.Done()
      modifies this`lowered, queue`fillPct, queue`relaxed, queue`warned
      ensures Valid()
      ensures queue.Current() == Eased(old(queue.Current()), adaptAfter, mono)
      ensures lowered == if queue.relaxed == old(queue.relaxed) then old(lowered) else old(lowered) + [queue.index]
    {
      hide GoodViews, Tally, Honoured, AllWellFormed, Eased, Stuck;
      var r := queue.MaybeRelax(adaptAfter, mono);
      if r.Lowered? {
        HonouredGrows(Session(), views, lowered, queue.index);
        lowered := lowered + [queue.index];
      }
    }

    method Keep(corners: seq<Point>, fill: real, frame: Frame)
      requires Valid() && !queue.Done()
      requires HasCorners(corners, queue.k) && Contains(queue.rect, corners)
      requires fill == ViewFill(corners, queue.k, queue.rect) && Accepts(true, fill, frame.now)
      modifies this`views, this`lastAccept, queue
      ensures Valid()
      ensures views ==
        old(views) + [View(corners, old(queue.index), old(queue.rect), fill, old(queue.fillPct), frame.now)]
      ensures lastAccept == frame.now && queue.taken == old(queue.taken) + 1
      ensures old(queue.index) <= queue.index <= old(queue.index) + 1
      ensures var v := View(corners, old(queue.index), old(queue.rect), fill, old(queue.fillPct), frame.now);
              Stands() == KeptBy(Session(), old(Stands()), v, old(queue.Current()), frame.mono)
      ensures queue.index > old(queue.index) && !queue.Done() ==> queue.tStart == frame.mono && queue.observed == []
    {
      hide GoodView, GoodViews, Tally, ViewFill, Contains, HasCorners, Samples, PixelRect, ThresholdRegion, Best,
        TargetQueue.Conserved, Honoured, AllWellFormed, Fresh;
      var v := View(corners, queue.index, queue.rect, fill, queue.fillPct, frame.now);
      ThresholdInForce();
      ViewIsGood(Session(), v);
      HonouredSnoc(Session(), views, v, lowered);
      queue.Accept(frame.mono);
      KeptLeavesGood(Session(), views, v, forfeited, old(queue.taken), old(queue.index), old(queue.remaining),
                     lastAccept, queue.index, queue.remaining);
      views := views + [v];
      lastAccept := frame.now;
    }

    /** What the frame shows of the current target. */
    method Look(found: Option<seq<Point>>) returns (inside: bool, fill: real)
      requires Valid() && !queue.Done() && (found.Some? ==> HasCorners(found.value, queue.k))
      modifies queue`inBoxHits, queue`bestFill, queue`observed
      ensures Valid()
      ensures inside <==> found.Some? && Contains(queue.rect, found.value)
      ensures fill == if inside then ViewFill(found.value, queue.k, queue.rect) else 0.0
      ensures queue.Current() == Noted(old(queue.Current()), inside, fill)
    {
      hide GoodViews, Tally, Honoured, AllWellFormed, Noted;
      fill, inside := 0.0, false;
      if found.Some? {
        inside := Contains(queue.rect, found.value);
        if inside {
          fill := ViewFill(found.value, queue.k, queue.rect);
        }
      }
      queue.Note(inside, fill);
    }

    /** The detection half of a pass: at most one view, and exactly when the frame
        meets the threshold in the box, once settled. The threshold compared with
        is the one after this pass's relaxation. */
    method Sample(frame: Frame) returns (kept: Option<View>)
      requires Valid() && !queue.Done() && Readable(queue.k, frame)
      modifies this, queue
      ensures Valid()
      ensures kept == Taken(Session(), adaptAfter, old(queue.Current()), old(lastAccept), frame)
      ensures Stands() == Sampled(Session(), adaptAfter, old(Stands()), frame)
      ensures views == old(views) + Added(kept) && forfeited == old(forfeited)
      ensures queue.taken == old(queue.taken) + |Added(kept)|
      ensures old(queue.index) <= queue.index <= old(queue.index) + |Added(kept)|
    {
      hide GoodViews, Tally, Honoured, AllWellFormed, LoweredOnce, TargetQueue.Loaded, TargetQueue.Conserved,
        TargetQueue.Wants, ViewFill, Contains, HasCorners, Stuck;
      kept := None;
      ghost var was := queue.Current();
      var inside, fill := Look(frame.found);
      Relax(frame.mono);
      if Accepts(inside, fill, frame.now) {
        kept := Some(View(frame.found.value, queue.index, queue.rect, fill, queue.fillPct, frame.now));
        Keep(frame.found.value, fill, frame);
      }
    }

    /** One pass of the loop; `more` is false when the run is over. A skip comes
        first, so its frame already meets the next target. */
    method Process(frame: Frame) returns (more: bool)
      requires Valid() && Readable(queue.k, frame)
      modifies this, queue
      ensures Valid()
      ensures !more <==> frame.stop || queue.Done()
      ensures Stands() == Passed(Session(), adaptAfter, old(Stands()), frame)
      ensures old(views) <= views && (!frame.skip ==> forfeited == old(forfeited))
      ensures queue.taken >= old(queue.taken) && queue.index >= old(queue.index)
      ensures queue.Progress() >= old(queue.Progress())
    {
      hide GoodViews, Tally, Honoured, AllWellFormed, LoweredOnce, TargetQueue.Loaded, TargetQueue.Conserved,
        TargetQueue.Wants, HasCorners, Taken, Readable, Skipped, Sampled, Samples;
      queue.TotalOfTable();
      if frame.stop || queue.Done() {
        return false;
      }
      if frame.skip {
        Skip(frame.mono);
        NeverFalls(old(queue.taken), queue.taken, queue.total, queue.targets);
        if queue.Done() {
          return false;
        }
      }
      var kept := Sample(frame);
      more := !queue.Done();
      NeverFalls(old(queue.taken), queue.taken, queue.total, queue.targets);
    }

    /** A whole run: which views it keeps, what it forfeits and where it stands is what
        its passes make of the frames. Whatever these and the commands, every kept view
        is good, meets the threshold its target had then, the samples are conserved, and
        a run is complete exactly when kept views and forfeited samples reach the total. */
    method Run(frames: seq<Frame>)
      requires Valid()
      requires forall i :: 0 <= i < |frames| ==> Readable(queue.k, frames[i])
      modifies this, queue
      ensures Valid() && old(views) <= views
      ensures Stands() == PassedAll(Session(), adaptAfter, old(Stands()), frames)
      ensures |views| + forfeited <= queue.total
      ensures queue.Done() <==> |views| + forfeited == queue.total
      ensures (forall i :: 0 <= i < |frames| ==> !frames[i].skip) ==> forfeited == old(forfeited)
    {
      hide GoodViews, Honoured, AllWellFormed, LoweredOnce, TargetQueue.Loaded, TargetQueue.Conserved,
        TargetQueue.Wants, HasCorners, Taken, Passed, PassedAll, Readable;
      var i := 0;
      var more := true;
      ghost var s, start := Session(), Stands();
      assert frames[0..] == frames;
      while i < |frames| && more
        invariant 0 <= i <= |frames|
        invariant Valid() && old(views) <= views
        invariant more ==> PassedAll(s, adaptAfter, Stands(), frames[i..]) == PassedAll(s, adaptAfter, start, frames)
        invariant !more ==> Stands() == PassedAll(s, adaptAfter, start, frames)
        invariant (forall j :: 0 <= j < i ==> !frames[j].skip) ==> forfeited == old(forfeited)
      {
        assert frames[i..][1..] == frames[i + 1..];
        FirstPassed(s, adaptAfter, Stands(), frames[i..]);
        more := Process(frames[i]);
        i := i + 1;
      }
      if more {
        NothingPassed(s, adaptAfter, Stands());
        assert frames[i..] == [];
      }
      queue.ProgressMeansDone();
    }
  }
}
