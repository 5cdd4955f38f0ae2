/** The encoder's selection loop over the coalescing queue and capture's held frame,
    against a plain queue that keeps every frame. */
module FrameSelection {
  import opened Basics
  import opened EncoderCadence
  import opened FrameQueue

  const TIMED_SELECTION_LATENESS: int := 20_000

  predicate SelectByDeadline(moreTicksDue: bool, lateness: int) {
    moreTicksDue || lateness > TIMED_SELECTION_LATENESS
  }

  // ------------------------------------------------------------------ the loop

  /** `media` is the constant offset from the monotonic clock to frame time.
      `released` counts frames capture discarded unprepared (history). */
  datatype Loop = Loop(
    clock: Clock, media: int, timedCatchUp: bool, capacity: nat,
    queue: QueueState, held: Option<Frame>, released: nat)

  /** A frame capture publishes; it is held if the queue announces a next deadline. */
  datatype Arrival = Arrival(frame: Frame, announced: bool)

  /** A wake flushes the held frame, announces the following tick and selects for this one.
      Capture may publish in between: `before` arrive between the flush and the announcement,
      `after` between the announcement and the selection. */
  datatype Step =
    | Arrive(arrival: Arrival)
    | Wake(now: int, before: seq<Arrival>, after: seq<Arrival>)
    | ClearAll

  /** The deadline in frame time that the wake at `now` selects by, if it selects by one. */
  function SelectionDeadline(clock: Clock, media: int, timedCatchUp: bool, now: int): Option<int> {
    if && timedCatchUp
       && SelectByDeadline(clock.Advanced(now).NextDeadline() <= now, Max(0, now - clock.NextDeadline()))
    then Some(media + clock.Deadline(clock.TickFor(now)))
    else None
  }

  /** The held frame leaves: released if the new one supersedes it, else queued. */
  function HeldResolved(s: Loop, newer: int): Loop
    requires s.capacity >= 1
  {
    match s.held
    case None => s
    case Some(h) =>
      if SupersededBy(s.queue.nextTick, s.queue.tickFps, h.pts, newer)
      then s.(held := None, released := s.released + 1)
      else s.(held := None, queue := Pushed(s.queue, h, s.capacity))
  }

  function Arrived(s: Loop, a: Arrival): Loop
    requires s.capacity >= 1
  {
    var t := HeldResolved(s, a.frame.pts);
    if a.announced then t.(held := Some(a.frame))
    else t.(queue := Pushed(t.queue, a.frame, t.capacity))
  }

  function ArrivedAll(s: Loop, arrivals: seq<Arrival>): (r: Loop)
    requires s.capacity >= 1
    ensures r.capacity == s.capacity && r.clock == s.clock && r.media == s.media && r.timedCatchUp == s.timedCatchUp
    decreases |arrivals|
  {
    if arrivals == [] then s else ArrivedAll(Arrived(s, arrivals[0]), arrivals[1..])
  }

  function Flushed(s: Loop): Loop
    requires s.capacity >= 1
  {
    if s.held.Some? then s.(held := None, queue := Pushed(s.queue, s.held.value, s.capacity)) else s
  }

  /** How many of the queued frames a wake consumes. */
  function TakeCount(frames: seq<Frame>, due: Option<int>): (n: nat)
    ensures n <= |frames|
  {
    if due.Some? then DueCount(frames, due.value) else |frames|
  }

  /** Advance the clock and announce the following tick. */
  function Announcing(s: Loop, now: int): Loop {
    var clock := s.clock.Advanced(now);
    s.(clock := clock, queue := Announced(s.queue, s.media + clock.NextDeadline(), clock.fps))
  }

  function Took(s: Loop, due: Option<int>): (Loop, Option<Frame>) {
    var (queue, latest) := TakenFirst(s.queue, TakeCount(s.queue.frames, due));
    (s.(queue := queue), latest)
  }

  function DueAt(s: Loop, now: int): Option<int> {
    SelectionDeadline(s.clock, s.media, s.timedCatchUp, now)
  }

  /** The state a wake selects from. */
  function Opened(s: Loop, now: int, before: seq<Arrival>, after: seq<Arrival>): Loop
    requires s.capacity >= 1
  {
    ArrivedAll(Announcing(ArrivedAll(Flushed(s), before), now), after)
  }

  function Woken(s: Loop, now: int, before: seq<Arrival>, after: seq<Arrival>): (Loop, Option<Frame>)
    requires s.capacity >= 1
  {
    Took(Opened(s, now, before, after), DueAt(s, now))
  }

  function Stepped(s: Loop, step: Step): (Loop, Option<Frame>)
    requires s.capacity >= 1
  {
    match step
    case Arrive(a) => (Arrived(s, a), None)
    case Wake(now, before, after) => Woken(s, now, before, after)
    case ClearAll =>
      (s.(queue := Cleared(s.queue), held := None,
          released := s.released + if s.held.Some? then 1 else 0), None)
  }

  /** The selections of a run, one entry a step. */
  function Run(s: Loop, steps: seq<Step>): (Loop, seq<Option<Frame>>)
    requires s.capacity >= 1
    decreases |steps|
  {
    if steps == [] then (s, [])
    else
      var (t, out) := Stepped(s, steps[0]);
      var (final, rest) := Run(t, steps[1..]);
      (final, [out] + rest)
  }

  lemma {:induction false} ArrivalsOnlyAddOverflow(s: Loop, arrivals: seq<Arrival>)
    requires s.capacity >= 1
    ensures ArrivedAll(s, arrivals).queue.stats.overflowDrops >= s.queue.stats.overflowDrops
    decreases |arrivals|
  {
    if arrivals != [] {
      ArrivalsOnlyAddOverflow(Arrived(s, arrivals[0]), arrivals[1..]);
    }
  }

  lemma WakeOnlyAddsOverflow(s: Loop, now: int, before: seq<Arrival>, after: seq<Arrival>)
    requires s.capacity >= 1
    ensures var flushed := Flushed(s);
            var announced := Announcing(ArrivedAll(flushed, before), now);
            && s.queue.stats.overflowDrops <= flushed.queue.stats.overflowDrops
                 <= announced.queue.stats.overflowDrops
                 <= Opened(s, now, before, after).queue.stats.overflowDrops
                 == Woken(s, now, before, after).0.queue.stats.overflowDrops
  {
    ArrivalsOnlyAddOverflow(Flushed(s), before);
    ArrivalsOnlyAddOverflow(Announcing(ArrivedAll(Flushed(s), before), now), after);
  }

  lemma StepOnlyAddsOverflow(s: Loop, step: Step)
    requires s.capacity >= 1
    ensures Stepped(s, step).0.queue.stats.overflowDrops >= s.queue.stats.overflowDrops
  {
    if step.Wake? {
      WakeOnlyAddsOverflow(s, step.now, step.before, step.after);
    }
  }

  lemma {:induction false} RunOnlyAddsOverflow(s: Loop, steps: seq<Step>)
    requires s.capacity >= 1
    ensures Run(s, steps).0.queue.stats.overflowDrops >= s.queue.stats.overflowDrops
    decreases |steps|
  {
    if steps != [] {
      StepOnlyAddsOverflow(s, steps[0]);
      RunOnlyAddsOverflow(Stepped(s, steps[0]).0, steps[1..]);
    }
  }

  // ------------------------------------------------------------ the plain reference

  /** A queue that prepares and keeps every frame until a tick takes or passes it. */
  datatype Plain = Plain(frames: seq<Frame>, passedOver: nat, cleared: nat)

  function PlainTaken(p: Plain, count: nat): (Plain, Option<Frame>)
    requires count <= |p.frames|
  {
    if count == 0 then (p, None)
    else (p.(frames := p.frames[count..], passedOver := p.passedOver + count - 1), Some(p.frames[count - 1]))
  }

  function FramesIn(arrivals: seq<Arrival>): seq<Frame> {
    if arrivals == [] then [] else [arrivals[0].frame] + FramesIn(arrivals[1..])
  }

  function PlainStepped(p: Plain, s: Loop, step: Step): (Plain, Option<Frame>) {
    match step
    case Arrive(a) => (p.(frames := p.frames + [a.frame]), None)
    case Wake(now, before, after) =>
      var q := p.(frames := p.frames + FramesIn(before) + FramesIn(after));
      PlainTaken(q, TakeCount(q.frames, DueAt(s, now)))
    case ClearAll => (p.(frames := [], cleared := p.cleared + |p.frames|), None)
  }

  /** The plain queue run beside the real loop, sharing only its clock. */
  function PlainRun(p: Plain, s: Loop, steps: seq<Step>): (Plain, seq<Option<Frame>>)
    requires s.capacity >= 1
    decreases |steps|
  {
    if steps == [] then (p, [])
    else
      var (p', out) := PlainStepped(p, s, steps[0]);
      var (final, rest) := PlainRun(p', Stepped(s, steps[0]).0, steps[1..]);
      (final, [out] + rest)
  }

  /** Every frame published in a run, in order. */
  function Published(steps: seq<Step>): seq<Frame>
    decreases |steps|
  {
    if steps == [] then []
    else
      (match steps[0]
       case Arrive(a) => [a.frame]
       case Wake(_, before, after) => FramesIn(before) + FramesIn(after)
       case ClearAll => [])
      + Published(steps[1..])
  }

  // ------------------------------------------------------------------- thinning

  ghost predicate Sorted(frames: seq<Frame>) {
    forall i, j :: 0 <= i < j < |frames| ==> frames[i].pts <= frames[j].pts
  }

  /** `q` is `p` with some frames removed, each dead in favour of its successor in `p`. */
  ghost predicate Thinned(p: seq<Frame>, q: seq<Frame>, ticks: iset<int>) {
    if p == [] then q == []
    else
      || (q != [] && p[0] == q[0] && Thinned(p[1..], q[1..], ticks))
      || (|p| > 1 && Dead(ticks, p[0].pts, p[1].pts) && Thinned(p[1..], q, ticks))
  }

  lemma {:induction false} ThinnedEnds(p: seq<Frame>, q: seq<Frame>, ticks: iset<int>)
    requires Thinned(p, q, ticks)
    ensures |q| <= |p|
    ensures p == [] <==> q == []
    ensures p != [] ==> p[|p| - 1] == q[|q| - 1]
  {
    if p != [] {
      if q != [] && p[0] == q[0] && Thinned(p[1..], q[1..], ticks) {
        ThinnedEnds(p[1..], q[1..], ticks);
      } else {
        ThinnedEnds(p[1..], q, ticks);
      }
    }
  }

  /** Fewer remaining ticks leave dead frames dead. */
  lemma {:induction false} ThinnedLater(p: seq<Frame>, q: seq<Frame>, ticks: iset<int>, later: iset<int>)
    requires Thinned(p, q, ticks) && later <= ticks
    ensures Thinned(p, q, later)
  {
    if p != [] {
      if q != [] && p[0] == q[0] && Thinned(p[1..], q[1..], ticks) {
        ThinnedLater(p[1..], q[1..], ticks, later);
      } else {
        ThinnedLater(p[1..], q, ticks, later);
      }
    }
  }

  lemma RemainingShrinks(c: Clock, d: Clock, media: int, k: nat, later: nat)
    requires k <= later && d == c.(next := d.next)
    ensures Remaining(d, media, later) <= Remaining(c, media, k)
  {
    assert forall j: nat :: c.Deadline(j) == d.Deadline(j);
  }

  lemma {:induction false} ThinnedAppend(
    p: seq<Frame>, q: seq<Frame>, f: Frame, ticks: iset<int>)
    requires Thinned(p, q, ticks)
    ensures Thinned(p + [f], q + [f], ticks)
  {
    if p != [] {
      assert (p + [f])[1..] == p[1..] + [f];
      if q != [] && p[0] == q[0] && Thinned(p[1..], q[1..], ticks) {
        assert (q + [f])[1..] == q[1..] + [f];
        ThinnedAppend(p[1..], q[1..], f, ticks);
      } else {
        ThinnedAppend(p[1..], q, f, ticks);
      }
    }
  }

  /** The newest frame may remove the one before it once that one is dead. */
  lemma {:induction false} ThinnedRemove(
    p: seq<Frame>, front: seq<Frame>, older: Frame, newest: Frame, ticks: iset<int>)
    requires Sorted(p)
    requires Thinned(p, front + [older, newest], ticks)
    requires Dead(ticks, older.pts, newest.pts)
    ensures Thinned(p, front + [newest], ticks)
  {
    var q := front + [older, newest];
    ThinnedEnds(p, q, ticks);
    if p[0] == q[0] && Thinned(p[1..], q[1..], ticks) {
      if front == [] {
        assert q[1..] == [newest] == front + [newest];
        ThinnedEnds(p[1..], q[1..], ticks);
        assert p[1].pts <= p[|p| - 1].pts == newest.pts;
        assert Dead(ticks, p[0].pts, p[1].pts);
      } else {
        assert q[1..] == front[1..] + [older, newest];
        ThinnedRemove(p[1..], front[1..], older, newest, ticks);
        assert (front + [newest])[1..] == front[1..] + [newest];
      }
    } else {
      ThinnedRemove(p[1..], front, older, newest, ticks);
    }
  }

  /** Taking `n` frames of `p` and `m` of `q` selects the same frame and keeps them thinned. */
  ghost predicate TakeAgrees(p: seq<Frame>, q: seq<Frame>, n: nat, m: nat, ticks: iset<int>) {
    && n <= |p| && m <= |q|
    && (n == 0 <==> m == 0)
    && (n > 0 ==> p[n - 1] == q[m - 1])
    && Thinned(p[n..], q[m..], ticks)
  }

  lemma TakeNone(p: seq<Frame>, q: seq<Frame>, ticks: iset<int>)
    requires Thinned(p, q, ticks)
    ensures TakeAgrees(p, q, 0, 0, ticks)
  {
    assert p[0..] == p && q[0..] == q;
  }

  lemma TakeAgreesWithHead(p: seq<Frame>, q: seq<Frame>, n: nat, m: nat, ticks: iset<int>)
    requires p != [] && q != [] && p[0] == q[0] && TakeAgrees(p[1..], q[1..], n, m, ticks)
    ensures TakeAgrees(p, q, n + 1, m + 1, ticks)
  {
    assert p[n + 1..] == p[1..][n..] && q[m + 1..] == q[1..][m..];
  }

  lemma TakeAgreesPastDead(p: seq<Frame>, q: seq<Frame>, n: nat, m: nat, ticks: iset<int>)
    requires p != [] && n > 0 && TakeAgrees(p[1..], q, n, m, ticks)
    ensures TakeAgrees(p, q, n + 1, m, ticks)
  {
    assert p[n + 1..] == p[1..][n..];
  }

  /** Selecting at a remaining tick takes the same frame from both and keeps them thinned. */
  lemma {:induction false} ThinnedSelect(p: seq<Frame>, q: seq<Frame>, ticks: iset<int>, due: int)
    requires Sorted(p) && Thinned(p, q, ticks) && due in ticks
    ensures TakeAgrees(p, q, DueCount(p, due), DueCount(q, due), ticks)
  {
    if p == [] {
      TakeNone(p, q, ticks);
    } else if q != [] && p[0] == q[0] && Thinned(p[1..], q[1..], ticks) {
      ThinnedSelect(p[1..], q[1..], ticks, due);
      if p[0].pts <= due {
        TakeAgreesWithHead(p, q, DueCount(p[1..], due), DueCount(q[1..], due), ticks);
      } else {
        TakeNone(p, q, ticks);
      }
    } else {
      var rest := p[1..];
      ThinnedSelect(rest, q, ticks, due);
      assert rest[0] == p[1] && p[0].pts <= p[1].pts;
      if p[0].pts <= due {
        TakeAgreesPastDead(p, q, DueCount(rest, due), DueCount(q, due), ticks);
      } else {
        TakeNone(p, q, ticks);
      }
    }
  }

  // ------------------------------------------------------- the loop keeps selections

  function Pending(s: Loop): seq<Frame> {
    s.queue.frames + if s.held.Some? then [s.held.value] else []
  }

  /** How the real loop and the plain queue stay related through a run. */
  ghost predicate Related(s: Loop, p: Plain) {
    && s.capacity >= 1 && !s.queue.stopped && Sorted(p.frames)
    && AnnouncesNext(s.queue, s.clock, s.media, s.clock.next)
    && Thinned(p.frames, Pending(s), Remaining(s.clock, s.media, s.clock.next))
    && s.queue.stats.coalescedDrops + s.released + s.queue.stats.cleared
       == p.passedOver + p.cleared + |p.frames| - |Pending(s)|
  }

  predicate Supersedes(q: QueueState, older: Frame, newer: Frame) {
    SupersededBy(q.nextTick, q.tickFps, older.pts, newer.pts)
  }

  function Back(q: QueueState): Frame
    requires q.frames != []
  {
    q.frames[|q.frames| - 1]
  }

  /** If queueing `f` releases the frame before it, that one is dead at the given ticks. */
  ghost predicate PushReleasesDead(q: QueueState, f: Frame, ticks: iset<int>) {
    q.frames != [] && Supersedes(q, Back(q), f) ==> Dead(ticks, Back(q).pts, f.pts)
  }

  /** Whatever an arrival releases, from the hold or from the queue, is dead at the given ticks. */
  ghost predicate ArrivalReleasesDead(s: Loop, a: Arrival, ticks: iset<int>)
    requires s.capacity >= 1
  {
    && (s.held.Some? ==>
          if Supersedes(s.queue, s.held.value, a.frame) then Dead(ticks, s.held.value.pts, a.frame.pts)
          else PushReleasesDead(s.queue, s.held.value, ticks))
    && (!a.announced ==> PushReleasesDead(HeldResolved(s, a.frame.pts).queue, a.frame, ticks))
  }

  /** Queueing the frame at the back of `pending` may also drop the one before it. */
  lemma PushKeepsThinned(q: QueueState, f: Frame, capacity: nat, p: seq<Frame>, ticks: iset<int>)
    requires capacity >= 1 && !q.stopped && Sorted(p) && PushReleasesDead(q, f, ticks)
    requires Thinned(p, q.frames + [f], ticks)
    requires Pushed(q, f, capacity).stats.overflowDrops == q.stats.overflowDrops
    ensures Thinned(p, Pushed(q, f, capacity).frames, ticks)
  {
    if q.frames != [] && Supersedes(q, Back(q), f) {
      var front := q.frames[..|q.frames| - 1];
      assert q.frames + [f] == front + [Back(q), f];
      ThinnedRemove(p, front, Back(q), f, ticks);
    }
  }

  lemma HeldResolvedKeepsThinned(s: Loop, a: Arrival, p: seq<Frame>, ticks: iset<int>)
    requires s.capacity >= 1 && !s.queue.stopped && Sorted(p + [a.frame])
    requires Thinned(p, Pending(s), ticks) && ArrivalReleasesDead(s, a, ticks)
    requires HeldResolved(s, a.frame.pts).queue.stats.overflowDrops == s.queue.stats.overflowDrops
    ensures Thinned(p + [a.frame], HeldResolved(s, a.frame.pts).queue.frames + [a.frame], ticks)
  {
    var f := a.frame;
    assert Sorted(p) by {
      assert forall i :: 0 <= i < |p| ==> (p + [f])[i] == p[i];
    }
    if s.held.Some? {
      var h := s.held.value;
      if Supersedes(s.queue, h, f) {
        ThinnedAppend(p, Pending(s), f, ticks);
        assert Pending(s) + [f] == s.queue.frames + [h, f];
        ThinnedRemove(p + [f], s.queue.frames, h, f, ticks);
      } else {
        PushKeepsThinned(s.queue, h, s.capacity, p, ticks);
        ThinnedAppend(p, HeldResolved(s, f.pts).queue.frames, f, ticks);
      }
    } else {
      assert Pending(s) == s.queue.frames;
      ThinnedAppend(p, s.queue.frames, f, ticks);
    }
  }

  /** An arrival that releases only dead frames keeps the pending frames thinned. */
  lemma ArrivalKeepsThinned(s: Loop, a: Arrival, p: seq<Frame>, ticks: iset<int>)
    requires s.capacity >= 1 && !s.queue.stopped && Sorted(p + [a.frame])
    requires Thinned(p, Pending(s), ticks) && ArrivalReleasesDead(s, a, ticks)
    requires Arrived(s, a).queue.stats.overflowDrops == s.queue.stats.overflowDrops
    ensures Thinned(p + [a.frame], Pending(Arrived(s, a)), ticks)
  {
    HeldResolvedKeepsThinned(s, a, p, ticks);
    var t, r := HeldResolved(s, a.frame.pts), Arrived(s, a);
    if a.announced {
      assert Pending(r) == t.queue.frames + [a.frame];
    } else {
      PushKeepsThinned(t.queue, a.frame, s.capacity, p + [a.frame], ticks);
      assert Pending(r) == r.queue.frames;
    }
  }

  /** What the rule releases is dead at the ticks it was told about. */
  lemma ReleasesAreDead(s: Loop, a: Arrival)
    requires s.capacity >= 1 && AnnouncesNext(s.queue, s.clock, s.media, s.clock.next)
    ensures ArrivalReleasesDead(s, a, Remaining(s.clock, s.media, s.clock.next))
  {
    var c, media, k, f := s.clock, s.media, s.clock.next, a.frame;
    if s.held.Some? {
      var h := s.held.value;
      if Supersedes(s.queue, h, f) {
        ReleasedFramesAreDead(s.queue, c, media, k, h.pts, f.pts);
      } else {
        PushReleaseIsDead(s.queue, h, c, media, k);
      }
    }
    PushReleaseIsDead(HeldResolved(s, f.pts).queue, f, c, media, k);
  }

  lemma PushReleaseIsDead(q: QueueState, f: Frame, c: Clock, media: int, k: nat)
    requires AnnouncesNext(q, c, media, k)
    ensures PushReleasesDead(q, f, Remaining(c, media, k))
  {
    if q.frames != [] && Supersedes(q, Back(q), f) {
      ReleasedFramesAreDead(q, c, media, k, Back(q).pts, f.pts);
    }
  }

  /** Every frame an arrival adds or releases is counted. */
  lemma ArrivalCounts(s: Loop, a: Arrival)
    requires s.capacity >= 1 && !s.queue.stopped
    requires Arrived(s, a).queue.stats.overflowDrops == s.queue.stats.overflowDrops
    ensures var r := Arrived(s, a);
            && r.queue.stats.coalescedDrops + r.released + |Pending(r)|
               == s.queue.stats.coalescedDrops + s.released + |Pending(s)| + 1
            && r.queue.stats.cleared == s.queue.stats.cleared && !r.queue.stopped
            && r.queue.nextTick == s.queue.nextTick && r.queue.tickFps == s.queue.tickFps
  {
  }

  lemma ArrivalKeepsRelated(s: Loop, p: Plain, a: Arrival)
    requires Related(s, p) && Sorted(p.frames + [a.frame])
    requires Arrived(s, a).queue.stats.overflowDrops == s.queue.stats.overflowDrops
    ensures Related(Arrived(s, a), p.(frames := p.frames + [a.frame]))
  {
    ReleasesAreDead(s, a);
    ArrivalKeepsThinned(s, a, p.frames, Remaining(s.clock, s.media, s.clock.next));
    ArrivalCounts(s, a);
  }

  lemma SortedFront(frames: seq<Frame>, rest: seq<Frame>, f: Frame)
    requires Sorted(frames + ([f] + rest))
    ensures Sorted(frames + [f]) && (frames + [f]) + rest == frames + ([f] + rest)
  {
    assert forall i :: 0 <= i <= |frames| ==> (frames + [f])[i] == (frames + ([f] + rest))[i];
  }

  lemma {:induction false} ArrivalsKeepRelated(s: Loop, p: Plain, arrivals: seq<Arrival>)
    requires Related(s, p) && Sorted(p.frames + FramesIn(arrivals))
    requires ArrivedAll(s, arrivals).queue.stats.overflowDrops == s.queue.stats.overflowDrops
    ensures Related(ArrivedAll(s, arrivals), p.(frames := p.frames + FramesIn(arrivals)))
    decreases |arrivals|
  {
    if arrivals == [] {
      assert p.frames + [] == p.frames;
    } else {
      var a, rest := arrivals[0], arrivals[1..];
      ArrivalsOnlyAddOverflow(Arrived(s, a), rest);
      SortedFront(p.frames, FramesIn(rest), a.frame);
      ArrivalKeepsRelated(s, p, a);
      ArrivalsKeepRelated(Arrived(s, a), p.(frames := p.frames + [a.frame]), rest);
    }
  }

  lemma FlushKeepsRelated(s: Loop, p: Plain)
    requires Related(s, p)
    requires Flushed(s).queue.stats.overflowDrops == s.queue.stats.overflowDrops
    ensures Related(Flushed(s), p) && Flushed(s).held == None
  {
    if s.held.Some? {
      PushReleaseIsDead(s.queue, s.held.value, s.clock, s.media, s.clock.next);
      PushKeepsThinned(s.queue, s.held.value, s.capacity, p.frames, Remaining(s.clock, s.media, s.clock.next));
    }
    assert Pending(Flushed(s)) == Flushed(s).queue.frames;
  }

  /** Announcing the following tick keeps the relation, and the tick itself may still be
      selected for: the pending frames stay thinned for it too. */
  lemma AnnounceKeepsRelated(s: Loop, p: Plain, now: int)
    requires Related(s, p)
    ensures Related(Announcing(s, now), p)
    ensures Thinned(p.frames, Pending(s), Remaining(Announcing(s, now).clock, s.media, s.clock.TickFor(now)))
    ensures Pending(Announcing(s, now)) == Pending(s)
  {
    var t, tick := Announcing(s, now), s.clock.TickFor(now);
    var ticks := Remaining(s.clock, s.media, s.clock.next);
    RemainingShrinks(s.clock, t.clock, s.media, s.clock.next, tick);
    RemainingShrinks(s.clock, t.clock, s.media, s.clock.next, t.clock.next);
    ThinnedLater(p.frames, Pending(s), ticks, Remaining(t.clock, s.media, tick));
    ThinnedLater(p.frames, Pending(s), ticks, Remaining(t.clock, s.media, t.clock.next));
  }

  /** Taking `m` of the queue where the plain one takes `n` selects the same frame. */
  lemma TakeKeepsRelated(s: Loop, p: Plain, due: Option<int>, ticks: iset<int>)
    requires Related(s, p) && Remaining(s.clock, s.media, s.clock.next) <= ticks
    requires TakeAgrees(p.frames, Pending(s), TakeCount(p.frames, due), TakeCount(s.queue.frames, due), ticks)
    ensures Took(s, due).1 == PlainTaken(p, TakeCount(p.frames, due)).1
    ensures Related(Took(s, due).0, PlainTaken(p, TakeCount(p.frames, due)).0)
  {
    var n, m := TakeCount(p.frames, due), TakeCount(s.queue.frames, due);
    ThinnedLater(p.frames[n..], Pending(s)[m..], ticks, Remaining(s.clock, s.media, s.clock.next));
    assert p.frames[0..] == p.frames && s.queue.frames[0..] == s.queue.frames;
    assert Pending(Took(s, due).0) == Pending(s)[m..];
    assert m > 0 ==> Pending(s)[m - 1] == s.queue.frames[m - 1];
  }

  /** A wake into which nothing arrives. */
  lemma QuietWake(s: Loop, now: int)
    requires s.capacity >= 1
    ensures Woken(s, now, [], []) == Took(Announcing(Flushed(s), now), DueAt(s, now))
  {
  }

  // ------------------------------------------------------ what the loop is prompt about

  /** A wake selects by deadline exactly when another tick is due already or it came more than
      two milliseconds after the tick it expected, and then by its own tick's deadline. */
  lemma TimedSelectionRule(s: Loop, now: int)
    ensures var tick := s.clock.TickFor(now);
            && (DueAt(s, now).Some? <==>
                  s.timedCatchUp && (s.clock.Deadline(tick + 1) <= now || now - s.clock.Deadline(s.clock.next) > 20_000))
            && (DueAt(s, now).Some? ==> DueAt(s, now).value == s.media + s.clock.Deadline(tick))
  {
  }

  /** No remaining tick comes within three units of the time between the two stamps. */
  ghost predicate FarFromTicks(s: Loop, older: int, newer: int) {
    older <= newer && forall due <- Remaining(s.clock, s.media, s.clock.next) :: !(older - 3 <= due <= newer + 3)
  }

  /** Once a wake has announced the next tick, a frame that no remaining tick comes near is
      released as soon as a newer one arrives: a held one before it is prepared, a queued one
      when the newer one is queued. */
  lemma ReleaseIsPrompt(s: Loop, now: int, a: Arrival)
    requires s.capacity >= 1 && !s.queue.stopped
    requires var t := Announcing(s, now); t.media + t.clock.NextDeadline() != 0
    ensures var t := Announcing(s, now);
            && (t.held.Some? && FarFromTicks(t, t.held.value.pts, a.frame.pts) ==>
                  && Arrived(t, a).released == t.released + 1
                  && (a.announced ==> Arrived(t, a).queue == t.queue && Arrived(t, a).held == Some(a.frame)))
            && (t.held == None && !a.announced && t.queue.frames != [] && |t.queue.frames| <= t.capacity
                && FarFromTicks(t, Back(t.queue).pts, a.frame.pts) ==>
                  Arrived(t, a).queue.frames == t.queue.frames[..|t.queue.frames| - 1] + [a.frame])
  {
    var t := Announcing(s, now);
    if t.held.Some? && FarFromTicks(t, t.held.value.pts, a.frame.pts) {
      KeptFramesAreNearATick(t.queue, t.clock, t.media, t.clock.next, t.held.value.pts, a.frame.pts);
    }
    if t.queue.frames != [] && FarFromTicks(t, Back(t.queue).pts, a.frame.pts) {
      KeptFramesAreNearATick(t.queue, t.clock, t.media, t.clock.next, Back(t.queue).pts, a.frame.pts);
    }
  }
}
