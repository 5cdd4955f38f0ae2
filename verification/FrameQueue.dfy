/** The capture-to-encoder frame queue, which drops superseded frames at push time. */
module FrameQueue {
  import opened Arithmetic
  import opened Basics
  import opened EncoderCadence

  const MARGIN: int := 2

  datatype Frame = Frame(pts: int, epoch: nat, sequence: nat)

  datatype Stats = Stats(
    pushed: nat, overflowDrops: nat, coalescedDrops: nat, cleared: nat, maximumDepth: nat)

  /** The queue as a value; `delivered` is a history count the source does not keep. */
  datatype QueueState = QueueState(
    frames: seq<Frame>, stopped: bool, stats: Stats, nextTick: int, tickFps: int, delivered: nat)

  /** The release rule: no remaining tick can select `older` once `newer` is queued. */
  predicate SupersededBy(nextTick: int, tickFps: int, older: int, newer: int) {
    if tickFps <= 0 || newer < older then false
    else if newer + MARGIN <= nextTick then true
    else if older <= nextTick + MARGIN then false
    else
      var interval := (older - nextTick) * tickFps / TIMEBASE;
      && nextTick + interval * TIMEBASE / tickFps + MARGIN < older
      && newer + MARGIN <= nextTick + (interval + 1) * TIMEBASE / tickFps
  }

  /** What `push` leaves behind: at most one coalesced frame from the back, then
      enough overflow from the front to make room. */
  function Pushed(q: QueueState, f: Frame, capacity: nat): QueueState
    requires capacity >= 1
  {
    if q.stopped then q
    else
      var n := |q.frames|;
      var coalesce := n > 0 && SupersededBy(q.nextTick, q.tickFps, q.frames[n - 1].pts, f.pts);
      var kept := if coalesce then q.frames[..n - 1] else q.frames;
      var overflow := Max(0, |kept| - capacity + 1);
      var frames := kept[overflow..] + [f];
      q.(frames := frames,
         stats := q.stats.(pushed := q.stats.pushed + 1,
                           coalescedDrops := q.stats.coalescedDrops + if coalesce then 1 else 0,
                           overflowDrops := q.stats.overflowDrops + overflow,
                           maximumDepth := Max(q.stats.maximumDepth, |frames|)))
  }

  function Announced(q: QueueState, nextTick: int, fps: int): QueueState {
    var tick := if fps > 0 then nextTick else 0;
    q.(nextTick := tick, tickFps := if tick != 0 then fps else 0)
  }

  /** The number of leading frames stamped at or before `pts`. */
  function DueCount(frames: seq<Frame>, pts: int): (n: nat)
    ensures n <= |frames|
    ensures forall i :: 0 <= i < n ==> frames[i].pts <= pts
    ensures n < |frames| ==> frames[n].pts > pts
  {
    if frames == [] || frames[0].pts > pts then 0
    else
      var n := 1 + DueCount(frames[1..], pts);
      assert forall i :: 1 <= i < n ==> frames[i] == frames[1..][i - 1];
      n
  }

  /** Takes the last of the first `count` frames and discards the ones before it. */
  function TakenFirst(q: QueueState, count: nat): (r: (QueueState, Option<Frame>))
    requires count <= |q.frames|
  {
    if count == 0 then (q, None)
    else
      (q.(frames := q.frames[count..],
          stats := q.stats.(coalescedDrops := q.stats.coalescedDrops + count - 1),
          delivered := q.delivered + 1),
       Some(q.frames[count - 1]))
  }

  function ConsumedAll(q: QueueState): (QueueState, Option<Frame>) {
    TakenFirst(q, |q.frames|)
  }

  function ConsumedAtOrBefore(q: QueueState, pts: int): (QueueState, Option<Frame>) {
    TakenFirst(q, DueCount(q.frames, pts))
  }

  function Cleared(q: QueueState): QueueState {
    q.(frames := [], stats := q.stats.(cleared := q.stats.cleared + |q.frames|))
  }

  class FrameQueue {
    const capacity: nat
    var frames: seq<Frame>
    var stopped: bool
    var stats: Stats
    var nextTick: int
    var tickFps: int
    ghost var delivered: nat

    ghost function State(): QueueState
      reads this
    {
      QueueState(frames, stopped, stats, nextTick, tickFps, delivered)
    }

    // A capacity of zero would make `Push` loop on an empty queue; the engine uses 20.
    constructor (capacity: nat)
      requires capacity >= 1
      ensures this.capacity == capacity
      ensures State() == QueueState([], false, Stats(0, 0, 0, 0, 0), 0, 0, 0)
    {
      this.capacity := capacity;
      frames, stopped, stats := [], false, Stats(0, 0, 0, 0, 0);
      nextTick, tickFps, delivered := 0, 0, 0;
    }

    method MakeRoom()
      requires capacity >= 1
      modifies this`frames, this`stats
      ensures var overflow := Max(0, |old(frames)| - capacity + 1);
              && frames == old(frames)[overflow..]
              && stats == old(stats).(overflowDrops := old(stats).overflowDrops + overflow)
    {
      ghost var all := frames;
      while |frames| >= capacity
        invariant |frames| <= |all| && frames == all[|all| - |frames|..]
        invariant stats == old(stats).(overflowDrops := old(stats).overflowDrops + |all| - |frames|)
        invariant |frames| < |all| ==> |frames| >= capacity - 1
      {
        frames := frames[1..];
        stats := stats.(overflowDrops := stats.overflowDrops + 1);
      }
    }

    method Push(frame: Frame)
      requires capacity >= 1
      modifies this
      ensures State() == Pushed(old(State()), frame, capacity)
    {
      if stopped { return; }
      stats := stats.(pushed := stats.pushed + 1);
      if frames != [] && SupersededBy(nextTick, tickFps, frames[|frames| - 1].pts, frame.pts) {
        frames := frames[..|frames| - 1];
        stats := stats.(coalescedDrops := stats.coalescedDrops + 1);
      }
      MakeRoom();
      frames := frames + [frame];
      stats := stats.(maximumDepth := Max(stats.maximumDepth, |frames|));
    }

    method AnnounceSelectionTicks(nextTickPts: int, fps: int)
      modifies this`nextTick, this`tickFps
      ensures State() == Announced(old(State()), nextTickPts, fps)
    {
      nextTick := if fps > 0 then nextTickPts else 0;
      tickFps := if nextTick != 0 then fps else 0;
    }

    method WouldSupersede(older: int, newer: int) returns (r: bool)
      ensures r == SupersededBy(nextTick, tickFps, older, newer)
    {
      r := SupersededBy(nextTick, tickFps, older, newer);
    }

    method ConsumeAllAndGetLatest() returns (latest: Option<Frame>)
      modifies this
      ensures (State(), latest) == ConsumedAll(old(State()))
    {
      if frames == [] { return None; }
      assert frames[|frames|..] == [];
      if |frames| > 1 {
        stats := stats.(coalescedDrops := stats.coalescedDrops + |frames| - 1);
      }
      latest := Some(frames[|frames| - 1]);
      frames, delivered := [], delivered + 1;
    }

    method ConsumeLatestAtOrBefore(pts: int) returns (latest: Option<Frame>)
      modifies this
      ensures (State(), latest) == ConsumedAtOrBefore(old(State()), pts)
    {
      latest := None;
      var consumed := 0;
      ghost var all, due := frames, DueCount(frames, pts);
      while frames != [] && frames[0].pts <= pts
        invariant consumed <= due && frames == all[consumed..]
        invariant consumed == 0 ==> latest == None
        invariant consumed > 0 ==> latest == Some(all[consumed - 1])
        invariant stats == old(stats) && stopped == old(stopped) && delivered == old(delivered)
        invariant nextTick == old(nextTick) && tickFps == old(tickFps)
        decreases |frames|
      {
        latest := Some(frames[0]);
        frames := frames[1..];
        consumed := consumed + 1;
      }
      if consumed > 1 {
        stats := stats.(coalescedDrops := stats.coalescedDrops + consumed - 1);
      }
      if consumed > 0 {
        delivered := delivered + 1;
      }
    }

    method Stop()
      modifies this`stopped
      ensures State() == old(State()).(stopped := true)
    {
      stopped := true;
    }

    method Clear()
      modifies this
      ensures State() == Cleared(old(State()))
    {
      stats := stats.(cleared := stats.cleared + |frames|);
      frames := [];
    }
  }

  // ---------------------------------------------------------------- accounting

  datatype Operation =
    | Push(frame: Frame)
    | Announce(nextTick: int, fps: int)
    | TakeAll
    | TakeAtOrBefore(pts: int)
    | Clear
    | Stop

  function Applied(q: QueueState, op: Operation, capacity: nat): QueueState
    requires capacity >= 1
  {
    match op
    case Push(f) => Pushed(q, f, capacity)
    case Announce(tick, fps) => Announced(q, tick, fps)
    case TakeAll => ConsumedAll(q).0
    case TakeAtOrBefore(pts) => ConsumedAtOrBefore(q, pts).0
    case Clear => Cleared(q)
    case Stop => q.(stopped := true)
  }

  function AppliedAll(q: QueueState, ops: seq<Operation>, capacity: nat): QueueState
    requires capacity >= 1
    decreases |ops|
  {
    if ops == [] then q else AppliedAll(Applied(q, ops[0], capacity), ops[1..], capacity)
  }

  /** Every pushed frame is delivered, counted as one kind of drop, or still queued. */
  ghost predicate Accounted(q: QueueState, capacity: nat) {
    && q.stats.pushed == q.delivered + q.stats.coalescedDrops + q.stats.overflowDrops
                       + q.stats.cleared + |q.frames|
    && |q.frames| <= q.stats.maximumDepth <= capacity
  }

  lemma PushKeepsAccounts(q: QueueState, f: Frame, capacity: nat)
    requires capacity >= 1 && Accounted(q, capacity)
    ensures Accounted(Pushed(q, f, capacity), capacity)
  {
  }

  lemma {:induction false} EveryFrameIsAccountedFor(q: QueueState, ops: seq<Operation>, capacity: nat)
    requires capacity >= 1 && Accounted(q, capacity)
    ensures Accounted(AppliedAll(q, ops, capacity), capacity)
    decreases |ops|
  {
    if ops != [] {
      if ops[0].Push? {
        PushKeepsAccounts(q, ops[0].frame, capacity);
      }
      assert Accounted(Applied(q, ops[0], capacity), capacity);
      EveryFrameIsAccountedFor(Applied(q, ops[0], capacity), ops[1..], capacity);
    }
  }

  /** The recorded depth is the greatest the queue has had: the one it began with, or one reached. */
  lemma {:induction false} DepthWasReached(q: QueueState, ops: seq<Operation>, capacity: nat) returns (n: nat)
    requires capacity >= 1
    ensures var depth := AppliedAll(q, ops, capacity).stats.maximumDepth;
            && n <= |ops| && depth >= q.stats.maximumDepth
            && (depth == q.stats.maximumDepth || |AppliedAll(q, ops[..n], capacity).frames| == depth)
    decreases |ops|
  {
    n := 0;
    if ops != [] {
      var after := Applied(q, ops[0], capacity);
      var m := DepthWasReached(after, ops[1..], capacity);
      var depth := AppliedAll(q, ops, capacity).stats.maximumDepth;
      if depth != after.stats.maximumDepth {
        n := m + 1;
        assert ops[..n][1..] == ops[1..][..m] && ops[..n][0] == ops[0];
      } else if depth != q.stats.maximumDepth {
        n := 1;
        assert ops[..1] == [ops[0]] && [ops[0]][1..] == [];
        assert AppliedAll(q, [ops[0]], capacity) == AppliedAll(after, [], capacity) == after;
      }
    }
  }

  // ------------------------------------------------------------- what a push drops

  /** A push keeps one run of the queue and puts the new frame behind it. Only a superseded
      frame can be missing at the back, and frames are missing at the front, the oldest first,
      only when the queue is full afterwards. */
  lemma PushDropsTheOldest(q: QueueState, f: Frame, capacity: nat) returns (first: nat, end: nat)
    requires capacity >= 1 && !q.stopped
    ensures first <= end <= |q.frames| && Pushed(q, f, capacity).frames == q.frames[first..end] + [f]
    ensures |Pushed(q, f, capacity).frames| <= capacity
    ensures first > 0 ==> |Pushed(q, f, capacity).frames| == capacity
    ensures end == |q.frames|
            || (end == |q.frames| - 1 && SupersededBy(q.nextTick, q.tickFps, q.frames[end].pts, f.pts))
    ensures q.frames != [] && SupersededBy(q.nextTick, q.tickFps, q.frames[|q.frames| - 1].pts, f.pts) ==>
              end == |q.frames| - 1
    ensures Pushed(q, f, capacity).stats.overflowDrops == q.stats.overflowDrops + first
    ensures Pushed(q, f, capacity).stats.coalescedDrops == q.stats.coalescedDrops + |q.frames| - end
  {
    var n := |q.frames|;
    var superseded := n > 0 && SupersededBy(q.nextTick, q.tickFps, q.frames[n - 1].pts, f.pts);
    end := if superseded then n - 1 else n;
    first := Max(0, end - capacity + 1);
    assert q.frames[..end][first..] == q.frames[first..end];
  }

  /** If a queued frame stays, so does every newer one, apart from a superseded last one. */
  lemma NewerFramesStayToo(q: QueueState, f: Frame, capacity: nat, i: nat, j: nat)
    requires capacity >= 1 && !q.stopped && i < j < |q.frames|
    requires forall a, b :: 0 <= a < b < |q.frames| ==> q.frames[a] != q.frames[b]
    requires f !in q.frames && q.frames[i] in Pushed(q, f, capacity).frames
    requires j == |q.frames| - 1 ==> !SupersededBy(q.nextTick, q.tickFps, q.frames[j].pts, f.pts)
    ensures q.frames[j] in Pushed(q, f, capacity).frames
  {
    var first, end := PushDropsTheOldest(q, f, capacity);
    var after := Pushed(q, f, capacity).frames;
    var k :| 0 <= k < |after| && after[k] == q.frames[i];
    assert after[k] == q.frames[first + k];
    assert after[j - first] == q.frames[j];
  }

  /** The frames a run pushes, in order. */
  function FramesPushed(ops: seq<Operation>): seq<Frame> {
    if ops == [] then [] else (if ops[0].Push? then [ops[0].frame] else []) + FramesPushed(ops[1..])
  }

  /** While no tick is announced, any run of pushes leaves exactly the newest frames that fit. */
  lemma {:induction false} PushesKeepTheNewest(q: QueueState, ops: seq<Operation>, capacity: nat)
    requires capacity >= 1 && !q.stopped && q.tickFps <= 0 && |q.frames| <= capacity
    requires forall op <- ops :: op.Push?
    ensures AppliedAll(q, ops, capacity).frames == Newest(q.frames + FramesPushed(ops), capacity)
    decreases |ops|
  {
    if ops == [] {
      assert q.frames + [] == q.frames;
    } else {
      var f, rest := ops[0].frame, ops[1..];
      assert ops[0].Push?;
      var after := Pushed(q, f, capacity);
      assert after.frames == Newest(q.frames + [f], capacity);
      PushesKeepTheNewest(after, rest, capacity);
      NewestOfNewest(q.frames + [f], FramesPushed(rest), capacity);
      Regroup(q.frames, [f], FramesPushed(rest));
    }
  }

  /** `some` is `all` with frames left out. */
  ghost predicate Subsequence(some: seq<Frame>, all: seq<Frame>)
    decreases |all|
  {
    if all == [] then some == []
    else
      || Subsequence(some, all[..|all| - 1])
      || (some != [] && some[|some| - 1] == all[|all| - 1] && Subsequence(some[..|some| - 1], all[..|all| - 1]))
  }

  lemma {:induction false} SuffixIsSubsequence(some: seq<Frame>, all: seq<Frame>, k: nat)
    requires Subsequence(some, all) && k <= |some|
    ensures Subsequence(some[k..], all)
    decreases |all|
  {
    if all != [] {
      var front := all[..|all| - 1];
      if Subsequence(some, front) {
        SuffixIsSubsequence(some, front, k);
      } else if k < |some| {
        SuffixIsSubsequence(some[..|some| - 1], front, k);
        assert some[k..][..|some| - k - 1] == some[..|some| - 1][k..];
      } else {
        NothingIsSubsequence(all);
      }
    }
  }

  lemma {:induction false} NothingIsSubsequence(all: seq<Frame>)
    ensures Subsequence([], all)
    decreases |all|
  {
    if all != [] {
      NothingIsSubsequence(all[..|all| - 1]);
    }
  }

  lemma {:induction false} FrontIsSubsequence(some: seq<Frame>, all: seq<Frame>, end: nat)
    requires Subsequence(some, all) && end <= |some|
    ensures Subsequence(some[..end], all)
    decreases |all|
  {
    if end == |some| {
      assert some[..end] == some;
    } else if all != [] {
      var front := all[..|all| - 1];
      if Subsequence(some, front) {
        FrontIsSubsequence(some, front, end);
      } else {
        FrontIsSubsequence(some[..|some| - 1], front, end);
        assert some[..|some| - 1][..end] == some[..end];
      }
    }
  }

  lemma SubsequenceGrows(some: seq<Frame>, all: seq<Frame>, f: Frame)
    requires Subsequence(some, all)
    ensures Subsequence(some, all + [f]) && Subsequence(some + [f], all + [f])
  {
    assert (all + [f])[..|all|] == all && (some + [f])[..|some|] == some;
  }

  lemma OperationKeepsOrder(q: QueueState, op: Operation, capacity: nat, all: seq<Frame>)
    requires capacity >= 1 && Subsequence(q.frames, all)
    ensures Subsequence(Applied(q, op, capacity).frames, all + FramesPushed([op]))
  {
    assert FramesPushed([op]) == if op.Push? then [op.frame] else [];
    assert all + [] == all;
    match op {
      case Push(f) =>
        SubsequenceGrows(q.frames, all, f);
        if !q.stopped {
          var first, end := PushDropsTheOldest(q, f, capacity);
          FrontIsSubsequence(q.frames, all, end);
          SuffixIsSubsequence(q.frames[..end], all, first);
          assert q.frames[..end][first..] == q.frames[first..end];
          SubsequenceGrows(q.frames[first..end], all, f);
        }
      case TakeAll => NothingIsSubsequence(all);
      case TakeAtOrBefore(pts) => SuffixIsSubsequence(q.frames, all, DueCount(q.frames, pts));
      case Clear => NothingIsSubsequence(all);
      case _ =>
    }
  }

  /** Over every run of operations the queue holds frames it was given, in the order they came. */
  lemma {:induction false} QueueKeepsOrder(q: QueueState, ops: seq<Operation>, capacity: nat, all: seq<Frame>)
    requires capacity >= 1 && Subsequence(q.frames, all)
    ensures Subsequence(AppliedAll(q, ops, capacity).frames, all + FramesPushed(ops))
    decreases |ops|
  {
    if ops == [] {
      assert all + [] == all;
    } else {
      var first := [ops[0]];
      OperationKeepsOrder(q, ops[0], capacity, all);
      QueueKeepsOrder(Applied(q, ops[0], capacity), ops[1..], capacity, all + FramesPushed(first));
      Regroup(all, FramesPushed(first), FramesPushed(ops[1..]));
      assert FramesPushed(ops) == FramesPushed(first) + FramesPushed(ops[1..]);
    }
  }

  /** A queue told of a tick holds exactly that tick and rate; a rate of zero clears both. */
  lemma AnnouncementIsHeld(q: QueueState, nextTick: int, fps: int)
    ensures nextTick != 0 && fps > 0 ==>
              Announced(q, nextTick, fps).nextTick == nextTick && Announced(q, nextTick, fps).tickFps == fps
    ensures nextTick == 0 || fps <= 0 ==> Announced(q, nextTick, fps).tickFps == 0
    ensures Announced(q, nextTick, fps).frames == q.frames && Announced(q, nextTick, fps).stats == q.stats
  {
  }

  // ------------------------------------------------------------- the release rule

  /** The frame times of the ticks from number `k` on. */
  ghost function Remaining(c: Clock, media: int, k: nat): iset<int> {
    iset j: nat | k <= j :: media + c.Deadline(j)
  }

  /** No remaining tick is due in `[older, newer)`, so none can select `older`. */
  ghost predicate Dead(ticks: iset<int>, older: int, newer: int) {
    forall due <- ticks :: !(older <= due < newer)
  }

  /** The queue announces either nothing or the clock's next tick in media time. */
  ghost predicate AnnouncesNext(q: QueueState, c: Clock, media: int, k: nat) {
    q.tickFps > 0 ==> q.tickFps == c.fps && q.nextTick == media + c.Deadline(k)
  }

  /** The rule releases only frames that no remaining tick can select. */
  lemma ReleasedFramesAreDead(q: QueueState, c: Clock, media: int, k: nat, older: int, newer: int)
    requires AnnouncesNext(q, c, media, k)
    requires SupersededBy(q.nextTick, q.tickFps, older, newer)
    ensures Dead(Remaining(c, media, k), older, newer)
  {
    forall j: nat | k <= j
      ensures !(older <= media + c.Deadline(j) < newer)
    {
      if k < j {
        DeadlinesIncrease(c, k, j);
      }
      if newer + MARGIN > q.nextTick {
        var interval := (older - q.nextTick) * q.tickFps / TIMEBASE;
        TicksWithinOneUnit(c, k, interval);
        TicksWithinOneUnit(c, k, interval + 1);
        if j < k + interval {
          DeadlinesIncrease(c, j, k + interval);
        } else if j > k + interval + 1 {
          DeadlinesIncrease(c, k + interval + 1, j);
        }
      }
    }
  }

  lemma QuotientBelow(x: int, a: int, d: int)
    requires 0 < d && a <= x * d
    ensures a / d <= x
  {
    DivisionBounds(a, d);
    CancelLess(a / d, x + 1, d);
  }

  lemma QuotientAbove(x: int, a: int, d: int)
    requires 0 < d && x * d < a
    ensures x <= a / d
  {
    DivisionBounds(a, d);
    CancelLess(x, a / d + 1, d);
  }

  /** A frame `gap` units after a tick lies between two multiples of the tick interval. */
  lemma IntervalAround(gap: int, fps: Rate)
    ensures var n := gap * fps / TIMEBASE;
            n * TIMEBASE / fps <= gap <= (n + 1) * TIMEBASE / fps
  {
    DivisionBounds(gap * fps, TIMEBASE);
    var n := gap * fps / TIMEBASE;
    QuotientBelow(gap, n * TIMEBASE, fps);
    QuotientAbove(gap, (n + 1) * TIMEBASE, fps);
  }

  /** The rule is prompt: a frame is kept only while some remaining tick is due within
      three units of the interval in which it is the newest one. */
  lemma KeptFramesAreNearATick(q: QueueState, c: Clock, media: int, k: nat, older: int, newer: int)
    requires AnnouncesNext(q, c, media, k) && q.tickFps > 0 && older <= newer
    requires forall due <- Remaining(c, media, k) :: !(older - 3 <= due <= newer + 3)
    ensures SupersededBy(q.nextTick, q.tickFps, older, newer)
  {
    var next, fps := q.nextTick, c.fps;
    assert media + c.Deadline(k) in Remaining(c, media, k);
    if newer + MARGIN > next {
      var interval := (older - next) * fps / TIMEBASE;
      IntervalAround(older - next, fps);
      assert interval >= 0 by {
        MulMonotone(0, older - next, fps);
      }
      TicksWithinOneUnit(c, k, interval);
      TicksWithinOneUnit(c, k, interval + 1);
      assert media + c.Deadline(k + interval) in Remaining(c, media, k);
      assert media + c.Deadline(k + interval + 1) in Remaining(c, media, k);
    }
  }
}
