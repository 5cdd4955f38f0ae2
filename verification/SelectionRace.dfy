/** Frames that arrive while the loop is awake, between its flush of the held frame and its
    selection. A frame that is held then misses the tick, and once the following tick is
    announced the release rule no longer spares the frame the current one needs. This module
    says exactly when a wake loses its frame, and so when a run selects what a queue keeping
    every frame selects. */
module SelectionRace {
  import opened Basics
  import opened EncoderCadence
  import opened FrameQueue
  import opened FrameSelection

  // ------------------------------------------------------------- what a wake loses

  /** Removing `older` for `newer` takes from the tick the frame it would have selected. */
  predicate Costs(older: Frame, newer: Frame, due: int) {
    older.pts <= due < newer.pts
  }

  /** Queueing `f` releases a due frame for one that is not due. */
  predicate PushLoses(q: QueueState, f: Frame, due: int) {
    q.frames != [] && Supersedes(q, Back(q), f) && Costs(Back(q), f, due)
  }

  /** An arrival releases a due frame, held or queued, for one that is not due. */
  predicate ArrivalLoses(s: Loop, a: Arrival, due: int)
    requires s.capacity >= 1
  {
    || (s.held.Some? &&
        if Supersedes(s.queue, s.held.value, a.frame) then Costs(s.held.value, a.frame, due)
        else PushLoses(s.queue, s.held.value, due))
    || (!a.announced && PushLoses(HeldResolved(s, a.frame.pts).queue, a.frame, due))
  }

  predicate ArrivalsLose(s: Loop, arrivals: seq<Arrival>, due: int)
    requires s.capacity >= 1
    decreases |arrivals|
  {
    arrivals != [] &&
    (ArrivalLoses(s, arrivals[0], due) || ArrivalsLose(Arrived(s, arrivals[0]), arrivals[1..], due))
  }

  /** The frame that is in the hold when the wake selects: the last arrival, if it was held. */
  function HeldBack(arrivals: seq<Arrival>): Option<Frame> {
    if arrivals != [] && arrivals[|arrivals| - 1].announced then Some(arrivals[|arrivals| - 1].frame) else None
  }

  /** A wake that selects the newest frame loses it to the hold. One that selects by deadline
      loses a due frame to the hold, or to a release once the following tick is announced. */
  predicate WakeLoses(s: Loop, now: int, before: seq<Arrival>, after: seq<Arrival>)
    requires s.capacity >= 1
  {
    var held := HeldBack(before + after);
    match DueAt(s, now)
    case None => held.Some?
    case Some(due) =>
      || (held.Some? && held.value.pts <= due)
      || ArrivalsLose(Announcing(ArrivedAll(Flushed(s), before), now), after, due)
  }

  lemma {:induction false} HoldAfterArrivals(s: Loop, arrivals: seq<Arrival>)
    requires s.capacity >= 1
    ensures ArrivedAll(s, arrivals).held == if arrivals == [] then s.held else HeldBack(arrivals)
    decreases |arrivals|
  {
    if arrivals != [] {
      HoldAfterArrivals(Arrived(s, arrivals[0]), arrivals[1..]);
      assert |arrivals| > 1 ==> arrivals[1..][|arrivals| - 2] == arrivals[|arrivals| - 1];
    }
  }

  lemma HoldWhenOpened(s: Loop, now: int, before: seq<Arrival>, after: seq<Arrival>)
    requires s.capacity >= 1
    ensures Opened(s, now, before, after).held == HeldBack(before + after)
  {
    HoldAfterArrivals(Flushed(s), before);
    HoldAfterArrivals(Announcing(ArrivedAll(Flushed(s), before), now), after);
    if after != [] {
      assert (before + after)[|before + after| - 1] == after[|after| - 1];
    } else {
      assert before + after == before;
    }
  }

  // ------------------------------------------------------------------ frame lists

  ghost predicate Distinct(frames: seq<Frame>) {
    forall i, j :: 0 <= i < j < |frames| ==> frames[i] != frames[j]
  }

  /** The last of the frames due. */
  function Choice(frames: seq<Frame>, due: Option<int>): Option<Frame> {
    var n := TakeCount(frames, due);
    if n == 0 then None else Some(frames[n - 1])
  }

  lemma ChoiceIsListed(frames: seq<Frame>, due: Option<int>)
    ensures Choice(frames, due).Some? ==> Choice(frames, due).value in frames
  {
  }

  lemma {:induction false} DueCountOfBoundary(frames: seq<Frame>, due: int, n: nat)
    requires n <= |frames|
    requires forall i :: 0 <= i < n ==> frames[i].pts <= due
    requires n < |frames| ==> frames[n].pts > due
    ensures DueCount(frames, due) == n
  {
    if n > 0 {
      DueCountOfBoundary(frames[1..], due, n - 1);
    }
  }

  /** Later frames that are not due do not change the choice. */
  lemma LaterFramesAreNotDue(frames: seq<Frame>, more: seq<Frame>, due: int)
    requires forall f <- more :: f.pts > due
    ensures DueCount(frames + more, due) == DueCount(frames, due)
  {
    var n := DueCount(frames, due);
    DueCountOfBoundary(frames + more, due, n);
  }

  /** A last frame that is due, with all before it due too, is the choice. */
  lemma LastIsChosen(frames: seq<Frame>, f: Frame, due: int)
    requires Sorted(frames + [f]) && f.pts <= due
    ensures DueCount(frames + [f], due) == |frames| + 1
  {
    var all := frames + [f];
    assert forall i :: 0 <= i < |frames| ==> all[i].pts <= all[|frames|].pts;
    DueCountOfBoundary(all, due, |all|);
  }

  /** The back of a queue that is due is chosen, when what follows it is not. */
  lemma BackIsChosen(frames: seq<Frame>, f: Frame, due: int)
    requires frames != [] && Sorted(frames) && frames[|frames| - 1].pts <= due < f.pts
    ensures Choice(frames + [f], Some(due)) == Some(frames[|frames| - 1])
  {
    var front, back := frames[..|frames| - 1], frames[|frames| - 1];
    assert front + [back] == frames;
    LastIsChosen(front, back, due);
    LaterFramesAreNotDue(frames, [f], due);
  }

  lemma {:induction false} ThinnedIsListed(p: seq<Frame>, q: seq<Frame>, ticks: iset<int>)
    requires Thinned(p, q, ticks)
    ensures forall f <- q :: f in p
  {
    if p != [] {
      assert p == [p[0]] + p[1..];
      if q != [] && p[0] == q[0] && Thinned(p[1..], q[1..], ticks) {
        assert q == [q[0]] + q[1..];
        ThinnedIsListed(p[1..], q[1..], ticks);
      } else {
        ThinnedIsListed(p[1..], q, ticks);
      }
    }
  }

  /** A thinned list keeps order and distinctness. */
  lemma {:induction false} ThinnedIsOrdered(p: seq<Frame>, q: seq<Frame>, ticks: iset<int>)
    requires Thinned(p, q, ticks) && Sorted(p) && Distinct(p)
    ensures Sorted(q) && Distinct(q)
  {
    if p != [] {
      if q != [] && p[0] == q[0] && Thinned(p[1..], q[1..], ticks) {
        ThinnedIsOrdered(p[1..], q[1..], ticks);
        ThinnedIsListed(p[1..], q[1..], ticks);
        forall j | 0 < j < |q|
          ensures q[0] != q[j] && q[0].pts <= q[j].pts
        {
          assert q[j] == q[1..][j - 1] && q[j] in p[1..];
          var k :| 0 <= k < |p| - 1 && p[1..][k] == q[j];
          assert p[k + 1] == q[j];
        }
        assert forall i, j :: 0 < i < j < |q| ==> q[i] == q[1..][i - 1] && q[j] == q[1..][j - 1];
      } else {
        ThinnedIsOrdered(p[1..], q, ticks);
      }
    }
  }

  // ------------------------------------------------------- losses are never made good

  /** A frame that is neither pending nor arriving does not come back. */
  lemma {:induction false} GoneStaysGone(s: Loop, arrivals: seq<Arrival>, f: Frame)
    requires s.capacity >= 1 && f !in Pending(s) && f !in FramesIn(arrivals)
    ensures f !in Pending(ArrivedAll(s, arrivals))
    decreases |arrivals|
  {
    if arrivals != [] {
      ArrivalAddsOnlyItself(s, arrivals[0], f);
      assert arrivals[0].frame in FramesIn(arrivals);
      assert forall g <- FramesIn(arrivals[1..]) :: g in FramesIn(arrivals);
      GoneStaysGone(Arrived(s, arrivals[0]), arrivals[1..], f);
    }
  }

  lemma ArrivalAddsOnlyItself(s: Loop, a: Arrival, f: Frame)
    requires s.capacity >= 1 && f !in Pending(s) && f != a.frame
    ensures f !in Pending(Arrived(s, a))
  {
    assert s.held.Some? ==> s.held.value in Pending(s);
    assert forall g <- s.queue.frames :: g in Pending(s);
    PushAddsOnlyItself(s.queue, a.frame, s.capacity, f);
    if s.held.Some? {
      PushAddsOnlyItself(s.queue, s.held.value, s.capacity, f);
    }
    PushAddsOnlyItself(HeldResolved(s, a.frame.pts).queue, a.frame, s.capacity, f);
  }

  lemma PushAddsOnlyItself(q: QueueState, a: Frame, capacity: nat, f: Frame)
    requires capacity >= 1 && f !in q.frames && f != a
    ensures f !in Pushed(q, a, capacity).frames
  {
  }

  /** Queueing a frame that releases the one before it leaves that one out. */
  lemma ReleasedIsGone(q: QueueState, f: Frame, capacity: nat, due: int)
    requires capacity >= 1 && !q.stopped && Distinct(q.frames + [f]) && PushLoses(q, f, due)
    requires Pushed(q, f, capacity).stats.overflowDrops == q.stats.overflowDrops
    ensures Back(q) !in Pushed(q, f, capacity).frames
  {
    var front := q.frames[..|q.frames| - 1];
    assert q.frames == front + [Back(q)];
    assert Pushed(q, f, capacity).frames == front + [f];
    assert forall i :: 0 <= i < |front| ==> (q.frames + [f])[i] == front[i];
    assert (q.frames + [f])[|front|] == Back(q) && (q.frames + [f])[|front| + 1] == f;
  }

  lemma OrderedFront(frames: seq<Frame>, f: Frame)
    requires Sorted(frames + [f]) && Distinct(frames + [f])
    ensures Sorted(frames) && Distinct(frames) && f !in frames && forall g <- frames :: g.pts <= f.pts
  {
    var all := frames + [f];
    assert forall i :: 0 <= i < |frames| ==> all[i] == frames[i];
    assert all[|frames|] == f;
  }

  /** The frame the tick would select, by what is pending. */
  lemma ChoiceIsPending(p: seq<Frame>, q: seq<Frame>, ticks: iset<int>, due: int)
    requires Sorted(p) && Distinct(p) && Thinned(p, q, ticks) && due in ticks
    ensures Choice(p, Some(due)) == Choice(q, Some(due)) && Sorted(q) && Distinct(q)
  {
    ThinnedSelect(p, q, ticks, due);
    ThinnedIsOrdered(p, q, ticks);
  }

  /** A losing release from the hold. */
  lemma HoldReleaseLoses(s: Loop, a: Arrival, due: int)
    requires s.capacity >= 1 && s.held.Some? && Sorted(Pending(s)) && Distinct(Pending(s))
    requires Supersedes(s.queue, s.held.value, a.frame) && Costs(s.held.value, a.frame, due)
    requires a.frame !in Pending(s)
    ensures Choice(Pending(s), Some(due)) == Some(s.held.value) && s.held.value !in Pending(Arrived(s, a))
  {
    var h := s.held.value;
    assert Pending(s) == s.queue.frames + [h];
    OrderedFront(s.queue.frames, h);
    LastIsChosen(s.queue.frames, h, due);
    PushAddsOnlyItself(s.queue, a.frame, s.capacity, h);
  }

  /** A losing release when the held frame is queued. */
  lemma HeldPushLoses(s: Loop, a: Arrival, due: int)
    requires s.capacity >= 1 && !s.queue.stopped && s.held.Some? && Sorted(Pending(s)) && Distinct(Pending(s))
    requires !Supersedes(s.queue, s.held.value, a.frame) && PushLoses(s.queue, s.held.value, due)
    requires a.frame !in Pending(s)
    requires HeldResolved(s, a.frame.pts).queue.stats.overflowDrops == s.queue.stats.overflowDrops
    ensures Choice(Pending(s), Some(due)) == Some(Back(s.queue)) && Back(s.queue) !in Pending(Arrived(s, a))
    ensures s.held.value.pts > due
  {
    var h, back := s.held.value, Back(s.queue);
    assert Pending(s) == s.queue.frames + [h];
    OrderedFront(s.queue.frames, h);
    BackIsChosen(s.queue.frames, h, due);
    ReleasedIsGone(s.queue, h, s.capacity, due);
    assert back in Pending(s);
    PushAddsOnlyItself(HeldResolved(s, a.frame.pts).queue, a.frame, s.capacity, back);
  }

  /** A losing release when the arrival itself is queued. */
  lemma ArrivalPushLoses(s: Loop, a: Arrival, due: int)
    requires s.capacity >= 1 && !s.queue.stopped && Sorted(Pending(s)) && Distinct(Pending(s))
    requires !a.announced && PushLoses(HeldResolved(s, a.frame.pts).queue, a.frame, due)
    requires Distinct(HeldResolved(s, a.frame.pts).queue.frames + [a.frame])
    requires s.held.Some? && Supersedes(s.queue, s.held.value, a.frame) ==> !Costs(s.held.value, a.frame, due)
    requires Arrived(s, a).queue.stats.overflowDrops == s.queue.stats.overflowDrops
    ensures var back := Back(HeldResolved(s, a.frame.pts).queue);
            Choice(Pending(s), Some(due)) == Some(back) && back !in Pending(Arrived(s, a))
  {
    var q := HeldResolved(s, a.frame.pts).queue;
    var front, back := q.frames[..|q.frames| - 1], Back(q);
    assert q.frames == front + [back];
    ReleasedIsGone(q, a.frame, s.capacity, due);
    assert Pending(Arrived(s, a)) == Arrived(s, a).queue.frames;
    if s.held.None? {
      assert Pending(s) == front + [back];
      LastIsChosen(front, back, due);
    } else {
      var h := s.held.value;
      assert Pending(s) == s.queue.frames + [h];
      OrderedFront(s.queue.frames, h);
      if Supersedes(s.queue, h, a.frame) {
        BackIsChosen(s.queue.frames, h, due);
      } else {
        LastIsChosen(s.queue.frames, h, due);
      }
    }
  }

  /** An arrival that loses takes the tick's choice out of the loop, and no later one is due. */
  lemma LossRemovesChoice(s: Loop, p: Plain, a: Arrival, ticks: iset<int>, due: int)
    requires Related(s, p) && Sorted(p.frames + [a.frame]) && Distinct(p.frames + [a.frame])
    requires Thinned(p.frames, Pending(s), ticks) && due in ticks && ArrivalLoses(s, a, due)
    requires Arrived(s, a).queue.stats.overflowDrops == s.queue.stats.overflowDrops
    ensures a.frame.pts > due
    ensures var choice := Choice(p.frames, Some(due));
            choice.Some? && choice.value.pts <= due && choice.value !in Pending(Arrived(s, a))
  {
    var f := a.frame;
    OrderedFront(p.frames, f);
    ChoiceIsPending(p.frames, Pending(s), ticks, due);
    ThinnedIsListed(p.frames, Pending(s), ticks);
    if s.held.Some? && Supersedes(s.queue, s.held.value, f) && Costs(s.held.value, f, due) {
      HoldReleaseLoses(s, a, due);
    } else if s.held.Some? && !Supersedes(s.queue, s.held.value, f) && PushLoses(s.queue, s.held.value, due) {
      HeldPushLoses(s, a, due);
      assert s.held.value in Pending(s);
    } else {
      ResolvedIsDistinct(s, p, a);
      ArrivalPushLoses(s, a, due);
    }
  }

  lemma ResolvedIsDistinct(s: Loop, p: Plain, a: Arrival)
    requires Related(s, p) && Sorted(p.frames + [a.frame]) && Distinct(p.frames + [a.frame])
    requires HeldResolved(s, a.frame.pts).queue.stats.overflowDrops == s.queue.stats.overflowDrops
    ensures Distinct(HeldResolved(s, a.frame.pts).queue.frames + [a.frame])
  {
    var next := Remaining(s.clock, s.media, s.clock.next);
    ReleasesAreDead(s, a);
    HeldResolvedKeepsThinned(s, a, p.frames, next);
    ThinnedIsOrdered(p.frames + [a.frame], HeldResolved(s, a.frame.pts).queue.frames + [a.frame], next);
  }

  // --------------------------------------------------- what does not lose is harmless

  /** A release for the following ticks that does not cost this tick its frame is dead for
      this tick too. */
  lemma HarmlessIsDead(c: Clock, media: int, tick: nat, due: int, older: Frame, newer: Frame)
    requires due == media + c.Deadline(tick) && !Costs(older, newer, due)
    requires Dead(Remaining(c, media, tick + 1), older.pts, newer.pts)
    ensures Dead(Remaining(c, media, tick), older.pts, newer.pts)
  {
    forall j: nat | tick <= j
      ensures !(older.pts <= media + c.Deadline(j) < newer.pts)
    {
      if tick < j {
        assert media + c.Deadline(j) in Remaining(c, media, tick + 1);
      }
    }
  }

  lemma HarmlessArrival(s: Loop, a: Arrival, tick: nat, due: int)
    requires s.capacity >= 1 && AnnouncesNext(s.queue, s.clock, s.media, s.clock.next)
    requires s.clock.next == tick + 1 && due == s.media + s.clock.Deadline(tick) && !ArrivalLoses(s, a, due)
    ensures ArrivalReleasesDead(s, a, Remaining(s.clock, s.media, tick))
  {
    var c, media, f := s.clock, s.media, a.frame;
    ReleasesAreDead(s, a);
    if s.held.Some? {
      var h := s.held.value;
      if Supersedes(s.queue, h, f) {
        HarmlessIsDead(c, media, tick, due, h, f);
      } else if s.queue.frames != [] && Supersedes(s.queue, Back(s.queue), h) {
        HarmlessIsDead(c, media, tick, due, Back(s.queue), h);
      }
    }
    var q := HeldResolved(s, f.pts).queue;
    if !a.announced && q.frames != [] && Supersedes(q, Back(q), f) {
      HarmlessIsDead(c, media, tick, due, Back(q), f);
    }
  }

  lemma SplitFirst(frames: seq<Frame>, rest: seq<Frame>, f: Frame)
    requires Sorted(frames + ([f] + rest)) && Distinct(frames + ([f] + rest))
    ensures (frames + [f]) + rest == frames + ([f] + rest)
    ensures Sorted(frames + [f]) && Distinct(frames + [f]) && forall g <- rest :: g.pts >= f.pts
  {
    var all := frames + ([f] + rest);
    assert forall i :: 0 <= i <= |frames| ==> (frames + [f])[i] == all[i];
    forall g | g in rest
      ensures g.pts >= f.pts
    {
      var k :| 0 <= k < |rest| && rest[k] == g;
      assert all[|frames|] == f && all[|frames| + 1 + k] == g;
    }
  }

  /** What an arrival that does not lose leaves. */
  lemma KeptArrival(s: Loop, p: Plain, a: Arrival, tick: nat, due: int, ticks: iset<int>)
    requires Related(s, p) && s.clock.next == tick + 1 && due == s.media + s.clock.Deadline(tick)
    requires ticks == Remaining(s.clock, s.media, tick) && Thinned(p.frames, Pending(s), ticks)
    requires Sorted(p.frames + [a.frame]) && !ArrivalLoses(s, a, due)
    requires Arrived(s, a).queue.stats.overflowDrops == s.queue.stats.overflowDrops
    ensures Related(Arrived(s, a), p.(frames := p.frames + [a.frame]))
    ensures Thinned(p.frames + [a.frame], Pending(Arrived(s, a)), ticks)
    ensures Arrived(s, a).clock == s.clock && Arrived(s, a).media == s.media
  {
    HarmlessArrival(s, a, tick, due);
    ArrivalKeepsThinned(s, a, p.frames, ticks);
    ArrivalKeepsRelated(s, p, a);
  }

  /** What an arrival that loses leaves, whatever follows it. */
  lemma {:induction false} LostArrival(s: Loop, p: Plain, a: Arrival, rest: seq<Arrival>, due: int, ticks: iset<int>)
    requires Related(s, p) && Thinned(p.frames, Pending(s), ticks) && due in ticks && ArrivalLoses(s, a, due)
    requires Sorted(p.frames + FramesIn([a] + rest)) && Distinct(p.frames + FramesIn([a] + rest))
    requires Arrived(s, a).queue.stats.overflowDrops == s.queue.stats.overflowDrops
    ensures var choice := Choice(p.frames + FramesIn([a] + rest), Some(due));
            choice.Some? && choice.value !in Pending(ArrivedAll(Arrived(s, a), rest))
  {
    assert ([a] + rest)[1..] == rest;
    var more := FramesIn([a] + rest);
    assert more == [a.frame] + FramesIn(rest);
    SplitFirst(p.frames, FramesIn(rest), a.frame);
    LossRemovesChoice(s, p, a, ticks, due);
    LaterFramesAreNotDue(p.frames, more, due);
    LaterKeepChoice(p.frames, more, due);
    GoneStaysGone(Arrived(s, a), rest, Choice(p.frames, Some(due)).value);
  }

  /** Arrivals after the announcement either lose the tick's choice for good or leave the
      pending frames thinned for the tick. */
  lemma {:induction false} ArrivalsLoseOrKeep(
    s: Loop, p: Plain, arrivals: seq<Arrival>, tick: nat, due: int, ticks: iset<int>)
    requires Related(s, p) && s.clock.next == tick + 1 && due == s.media + s.clock.Deadline(tick)
    requires ticks == Remaining(s.clock, s.media, tick) && due in ticks
    requires Thinned(p.frames, Pending(s), ticks)
    requires Sorted(p.frames + FramesIn(arrivals)) && Distinct(p.frames + FramesIn(arrivals))
    requires ArrivedAll(s, arrivals).queue.stats.overflowDrops == s.queue.stats.overflowDrops
    ensures var all, end := p.frames + FramesIn(arrivals), ArrivedAll(s, arrivals);
            && (!ArrivalsLose(s, arrivals, due) ==> Thinned(all, Pending(end), ticks))
            && (ArrivalsLose(s, arrivals, due) ==>
                  Choice(all, Some(due)).Some? && Choice(all, Some(due)).value !in Pending(end))
    decreases |arrivals|
  {
    if arrivals == [] {
      assert p.frames + [] == p.frames;
      return;
    }
    var a, rest := arrivals[0], arrivals[1..];
    ArrivalsOnlyAddOverflow(Arrived(s, a), rest);
    if ArrivalLoses(s, a, due) {
      assert [a] + rest == arrivals;
      LostArrival(s, p, a, rest, due, ticks);
    } else {
      SplitFirst(p.frames, FramesIn(rest), a.frame);
      KeptArrival(s, p, a, tick, due, ticks);
      ArrivalsLoseOrKeep(Arrived(s, a), p.(frames := p.frames + [a.frame]), rest, tick, due, ticks);
    }
  }

  lemma LaterKeepChoice(frames: seq<Frame>, more: seq<Frame>, due: int)
    requires DueCount(frames + more, due) == DueCount(frames, due)
    ensures Choice(frames + more, Some(due)) == Choice(frames, Some(due))
  {
  }

  // ------------------------------------------------------------------- one wake

  /** The plain queue when the wake selects. */
  function PlainOpened(p: Plain, before: seq<Arrival>, after: seq<Arrival>): Plain {
    p.(frames := p.frames + FramesIn(before) + FramesIn(after))
  }

  /** What is known once the following tick is announced. */
  lemma {:induction false} WakeAnnounces(s: Loop, p: Plain, now: int, before: seq<Arrival>)
    requires Related(s, p) && Sorted(p.frames + FramesIn(before))
    requires Announcing(ArrivedAll(Flushed(s), before), now).queue.stats.overflowDrops == s.queue.stats.overflowDrops
    ensures var announced, mid := Announcing(ArrivedAll(Flushed(s), before), now), p.frames + FramesIn(before);
            && Related(announced, p.(frames := mid)) && announced.clock.next == s.clock.TickFor(now) + 1
            && announced.media == s.media && announced.clock == s.clock.(next := announced.clock.next)
            && Thinned(mid, Pending(announced), Remaining(announced.clock, s.media, s.clock.TickFor(now)))
  {
    var flushed := Flushed(s);
    ArrivalsOnlyAddOverflow(flushed, before);
    FlushKeepsRelated(s, p);
    ArrivalsKeepRelated(flushed, p, before);
    AnnounceKeepsRelated(ArrivedAll(flushed, before), p.(frames := p.frames + FramesIn(before)), now);
  }

  /** What is known when the wake selects: the loop is related to the plain queue, and thinned
      for the wake's own tick unless an arrival lost its frame. */
  lemma {:induction false} WakeOpens(s: Loop, p: Plain, now: int, before: seq<Arrival>, after: seq<Arrival>, tick: nat, due: int)
    requires Related(s, p) && tick == s.clock.TickFor(now) && due == s.media + s.clock.Deadline(tick)
    requires Sorted(PlainOpened(p, before, after).frames) && Distinct(PlainOpened(p, before, after).frames)
    requires Woken(s, now, before, after).0.queue.stats.overflowDrops == s.queue.stats.overflowDrops
    ensures var open, q := Opened(s, now, before, after), PlainOpened(p, before, after).frames;
            var lose := ArrivalsLose(Announcing(ArrivedAll(Flushed(s), before), now), after, due);
            && Related(open, PlainOpened(p, before, after)) && open.clock.next == tick + 1
            && open.media == s.media && open.clock == s.clock.(next := tick + 1)
            && (!lose ==> Thinned(q, Pending(open), Remaining(open.clock, open.media, tick)))
            && (lose ==> Choice(q, Some(due)).Some? && Choice(q, Some(due)).value !in Pending(open))
  {
    WakeOnlyAddsOverflow(s, now, before, after);
    var announced := Announcing(ArrivedAll(Flushed(s), before), now);
    var mid := p.(frames := p.frames + FramesIn(before));
    PrefixIsOrdered(mid.frames, FramesIn(after));
    WakeAnnounces(s, p, now, before);
    ArrivalsKeepRelated(announced, mid, after);
    assert announced.clock.Deadline(tick) == s.clock.Deadline(tick);
    DeadlineRemains(s.clock, announced.clock, s.media, tick, due);
    ArrivalsLoseOrKeep(announced, mid, after, tick, due, Remaining(announced.clock, s.media, tick));
  }

  lemma PrefixIsOrdered(frames: seq<Frame>, more: seq<Frame>)
    requires Sorted(frames + more) && Distinct(frames + more)
    ensures Sorted(frames) && Distinct(frames)
  {
    assert forall i :: 0 <= i < |frames| ==> (frames + more)[i] == frames[i];
  }

  lemma TookIsChoice(s: Loop, p: Plain, due: Option<int>)
    ensures Took(s, due).1 == Choice(s.queue.frames, due)
    ensures PlainTaken(p, TakeCount(p.frames, due)).1 == Choice(p.frames, due)
  {
  }

  /** A frame that is not among the pending ones, or is held, is not taken. */
  lemma NotQueuedNotTaken(s: Loop, p: Plain, due: Option<int>, f: Frame)
    requires Choice(p.frames, due) == Some(f) && f !in s.queue.frames
    ensures Took(s, due).1 != PlainTaken(p, TakeCount(p.frames, due)).1
  {
    TookIsChoice(s, p, due);
    ChoiceIsListed(s.queue.frames, due);
  }

  lemma HeldIsNotQueued(s: Loop, p: Plain)
    requires Related(s, p) && s.held.Some? && Distinct(p.frames)
    ensures s.held.value !in s.queue.frames && Sorted(s.queue.frames + [s.held.value])
    ensures p.frames != [] && p.frames[|p.frames| - 1] == s.held.value
  {
    var ticks := Remaining(s.clock, s.media, s.clock.next);
    assert Pending(s) == s.queue.frames + [s.held.value];
    ThinnedIsOrdered(p.frames, Pending(s), ticks);
    ThinnedEnds(p.frames, Pending(s), ticks);
    OrderedFront(s.queue.frames, s.held.value);
  }

  /** Selecting the newest frame: right exactly when nothing is held. */
  lemma NewestIsTakenUnlessHeld(s: Loop, p: Plain)
    requires Related(s, p) && Distinct(p.frames)
    ensures Took(s, None).1 == PlainTaken(p, |p.frames|).1 <==> s.held == None
    ensures s.held == None ==> Related(Took(s, None).0, PlainTaken(p, |p.frames|).0)
  {
    var ticks := Remaining(s.clock, s.media, s.clock.next);
    if s.held.Some? {
      HeldIsNotQueued(s, p);
      NotQueuedNotTaken(s, p, None, s.held.value);
    } else {
      assert Pending(s) == s.queue.frames;
      ThinnedEnds(p.frames, Pending(s), ticks);
      assert p.frames[|p.frames|..] == [] == Pending(s)[|s.queue.frames|..];
      TakeKeepsRelated(s, p, None, ticks);
    }
  }

  /** Selecting by deadline from pending frames thinned for it: right exactly when no due
      frame is held. */
  lemma DueIsTakenUnlessHeld(s: Loop, p: Plain, tick: nat, due: int)
    requires Related(s, p) && Distinct(p.frames) && tick < s.clock.next
    requires due in Remaining(s.clock, s.media, tick)
    requires Thinned(p.frames, Pending(s), Remaining(s.clock, s.media, tick))
    ensures Took(s, Some(due)).1 == PlainTaken(p, DueCount(p.frames, due)).1
            <==> !(s.held.Some? && s.held.value.pts <= due)
    ensures !(s.held.Some? && s.held.value.pts <= due) ==>
              Related(Took(s, Some(due)).0, PlainTaken(p, DueCount(p.frames, due)).0)
  {
    var ticks := Remaining(s.clock, s.media, tick);
    ThinnedSelect(p.frames, Pending(s), ticks, due);
    if s.held.Some? {
      HeldIsNotQueued(s, p);
      if s.held.value.pts <= due {
        ChoiceIsPending(p.frames, Pending(s), ticks, due);
        LastIsChosen(s.queue.frames, s.held.value, due);
        NotQueuedNotTaken(s, p, Some(due), s.held.value);
        return;
      }
      LaterFramesAreNotDue(s.queue.frames, [s.held.value], due);
    } else {
      assert Pending(s) == s.queue.frames;
    }
    RemainingShrinks(s.clock, s.clock, s.media, tick, s.clock.next);
    TakeKeepsRelated(s, p, Some(due), ticks);
  }

  /** The opened queue loses its selection to the hold, or because an arrival lost it. */
  predicate SelectionLost(open: Loop, due: Option<int>, lose: bool) {
    match due
    case None => open.held.Some?
    case Some(d) => (open.held.Some? && open.held.value.pts <= d) || lose
  }

  /** Selecting from the opened queue agrees with the plain one unless the selection is lost. */
  lemma OpenedAgrees(open: Loop, q: Plain, due: Option<int>, tick: nat, lose: bool)
    requires Related(open, q) && Distinct(q.frames) && tick < open.clock.next
    requires due.Some? ==>
               && due.value in Remaining(open.clock, open.media, tick)
               && (!lose ==> Thinned(q.frames, Pending(open), Remaining(open.clock, open.media, tick)))
               && (lose ==> Choice(q.frames, due).Some? && Choice(q.frames, due).value !in Pending(open))
    ensures Took(open, due).1 == PlainTaken(q, TakeCount(q.frames, due)).1 <==> !SelectionLost(open, due, lose)
    ensures !SelectionLost(open, due, lose) ==>
              Related(Took(open, due).0, PlainTaken(q, TakeCount(q.frames, due)).0)
  {
    if due == None {
      NewestIsTakenUnlessHeld(open, q);
    } else if lose {
      assert forall f <- open.queue.frames :: f in Pending(open);
      NotQueuedNotTaken(open, q, due, Choice(q.frames, due).value);
    } else {
      DueIsTakenUnlessHeld(open, q, tick, due.value);
    }
  }

  lemma DueAtIsTheDeadline(s: Loop, now: int)
    ensures DueAt(s, now) == None || DueAt(s, now) == Some(s.media + s.clock.Deadline(s.clock.TickFor(now)))
  {
  }

  /** A wake selects what the plain queue selects, whatever arrived while it was awake, if and
      only if it does not lose its frame; and then the loop stays related to the plain queue. */
  lemma WakeAgreesUnlessItLoses(s: Loop, p: Plain, now: int, before: seq<Arrival>, after: seq<Arrival>)
    requires Related(s, p)
    requires Sorted(PlainOpened(p, before, after).frames) && Distinct(PlainOpened(p, before, after).frames)
    requires Woken(s, now, before, after).0.queue.stats.overflowDrops == s.queue.stats.overflowDrops
    ensures Woken(s, now, before, after).1 == PlainStepped(p, s, Wake(now, before, after)).1
            <==> !WakeLoses(s, now, before, after)
    ensures !WakeLoses(s, now, before, after) ==>
              Related(Woken(s, now, before, after).0, PlainStepped(p, s, Wake(now, before, after)).0)
  {
    var open, q, tick := Opened(s, now, before, after), PlainOpened(p, before, after), s.clock.TickFor(now);
    var due := s.media + s.clock.Deadline(tick);
    var lose := ArrivalsLose(Announcing(ArrivedAll(Flushed(s), before), now), after, due);
    WakeOpens(s, p, now, before, after, tick, due);
    DeadlineRemains(s.clock, open.clock, open.media, tick, due);
    DueAtIsTheDeadline(s, now);
    OpenedAgrees(open, q, DueAt(s, now), tick, lose);
    HoldWhenOpened(s, now, before, after);
  }

  lemma DeadlineRemains(c: Clock, d: Clock, media: int, tick: nat, due: int)
    requires d == c.(next := d.next) && due == media + c.Deadline(tick)
    ensures due in Remaining(d, media, tick)
  {
    assert d.Deadline(tick) == c.Deadline(tick);
  }

  /** A wake into which nothing arrives loses nothing. */
  lemma QuietWakeLosesNothing(s: Loop, now: int)
    requires s.capacity >= 1
    ensures !WakeLoses(s, now, [], [])
  {
  }

  // ------------------------------------------------------------------- whole runs

  predicate StepLoses(s: Loop, step: Step)
    requires s.capacity >= 1
  {
    step.Wake? && WakeLoses(s, step.now, step.before, step.after)
  }

  /** Some wake of the run loses its frame. */
  predicate RunLoses(s: Loop, steps: seq<Step>)
    requires s.capacity >= 1
    decreases |steps|
  {
    steps != [] && (StepLoses(s, steps[0]) || RunLoses(Stepped(s, steps[0]).0, steps[1..]))
  }

  lemma SuffixIsOrdered(frames: seq<Frame>, n: nat, more: seq<Frame>)
    requires n <= |frames| && Sorted(frames + more) && Distinct(frames + more)
    ensures Sorted(frames[n..] + more) && Distinct(frames[n..] + more)
  {
    assert forall i :: 0 <= i < |frames[n..] + more| ==> (frames[n..] + more)[i] == (frames + more)[n + i];
  }

  /** What the plain queue holds before a step takes from it. */
  function PlainWith(p: Plain, step: Step): seq<Frame> {
    match step
    case Arrive(a) => p.frames + [a.frame]
    case Wake(_, before, after) => PlainOpened(p, before, after).frames
    case ClearAll => p.frames
  }

  lemma Join<T>(a: seq<T>, b: seq<T>, c: seq<T>, d: seq<T>)
    ensures a + ((b + c) + d) == ((a + b) + c) + d
  {
  }

  lemma PublishedJoin(p: Plain, steps: seq<Step>)
    requires steps != []
    ensures p.frames + Published(steps) == PlainWith(p, steps[0]) + Published(steps[1..])
  {
    var rest := Published(steps[1..]);
    match steps[0] {
      case Arrive(a) =>
        Join(p.frames, [], [a.frame], rest);
        assert [] + [a.frame] == [a.frame] && p.frames + [] == p.frames;
      case Wake(_, before, after) => Join(p.frames, FramesIn(before), FramesIn(after), rest);
      case ClearAll => assert [] + rest == rest;
    }
  }

  lemma PlainKeepsSuffix(p: Plain, s: Loop, step: Step) returns (n: nat)
    ensures n <= |PlainWith(p, step)| && PlainStepped(p, s, step).0.frames == PlainWith(p, step)[n..]
  {
    var all := PlainWith(p, step);
    match step {
      case Arrive(_) => n := 0;
      case Wake(now, _, _) => n := TakeCount(all, DueAt(s, now));
      case ClearAll => n := |all|;
    }
    assert n == 0 ==> all[n..] == all;
  }

  /** What a step publishes joins the plain frames, and what it takes leaves from the front. */
  lemma StepKeepsOrder(s: Loop, p: Plain, steps: seq<Step>)
    requires steps != []
    requires Sorted(p.frames + Published(steps)) && Distinct(p.frames + Published(steps))
    ensures Sorted(PlainWith(p, steps[0])) && Distinct(PlainWith(p, steps[0]))
    ensures var all := PlainStepped(p, s, steps[0]).0.frames + Published(steps[1..]); Sorted(all) && Distinct(all)
  {
    var rest := Published(steps[1..]);
    PublishedJoin(p, steps);
    PrefixIsOrdered(PlainWith(p, steps[0]), rest);
    var n := PlainKeepsSuffix(p, s, steps[0]);
    SuffixIsOrdered(PlainWith(p, steps[0]), n, rest);
  }

  lemma ClearKeepsRelated(s: Loop, p: Plain)
    requires Related(s, p)
    ensures Related(Stepped(s, ClearAll).0, PlainStepped(p, s, ClearAll).0)
  {
    assert Pending(Stepped(s, ClearAll).0) == [];
  }

  /** One step: the same selection exactly when it loses nothing, and then still related. */
  lemma StepAgreesUnlessItLoses(s: Loop, p: Plain, steps: seq<Step>)
    requires Related(s, p) && steps != []
    requires Sorted(p.frames + Published(steps)) && Distinct(p.frames + Published(steps))
    requires Stepped(s, steps[0]).0.queue.stats.overflowDrops == s.queue.stats.overflowDrops
    ensures Stepped(s, steps[0]).1 == PlainStepped(p, s, steps[0]).1 <==> !StepLoses(s, steps[0])
    ensures !StepLoses(s, steps[0]) ==> Related(Stepped(s, steps[0]).0, PlainStepped(p, s, steps[0]).0)
  {
    StepKeepsOrder(s, p, steps);
    match steps[0] {
      case Arrive(a) => ArrivalKeepsRelated(s, p, a);
      case Wake(now, before, after) => WakeAgreesUnlessItLoses(s, p, now, before, after);
      case ClearAll => ClearKeepsRelated(s, p);
    }
  }

  lemma {:induction false} RunAgreesUnlessItLoses(s: Loop, p: Plain, steps: seq<Step>)
    requires Related(s, p)
    requires Sorted(p.frames + Published(steps)) && Distinct(p.frames + Published(steps))
    requires Run(s, steps).0.queue.stats.overflowDrops == s.queue.stats.overflowDrops
    ensures Run(s, steps).1 == PlainRun(p, s, steps).1 <==> !RunLoses(s, steps)
    ensures !RunLoses(s, steps) ==> Related(Run(s, steps).0, PlainRun(p, s, steps).0)
    decreases |steps|
  {
    if steps == [] { return; }
    var t := Stepped(s, steps[0]).0;
    StepOnlyAddsOverflow(s, steps[0]);
    RunOnlyAddsOverflow(t, steps[1..]);
    StepAgreesUnlessItLoses(s, p, steps);
    var x, y := Stepped(s, steps[0]).1, PlainStepped(p, s, steps[0]).1;
    if StepLoses(s, steps[0]) {
      assert Run(s, steps).1[0] == x && PlainRun(p, s, steps).1[0] == y;
    } else {
      StepKeepsOrder(s, p, steps);
      var p' := PlainStepped(p, s, steps[0]).0;
      RunAgreesUnlessItLoses(t, p', steps[1..]);
      assert Run(s, steps).1[1..] == Run(t, steps[1..]).1;
      assert PlainRun(p, s, steps).1[1..] == PlainRun(p', t, steps[1..]).1;
    }
  }

  function Started(c: Clock, media: int, timedCatchUp: bool, capacity: nat, announced: bool): Loop {
    Loop(c, media, timedCatchUp, capacity,
         QueueState([], false, Stats(0, 0, 0, 0, 0),
                    if announced then media + c.NextDeadline() else 0,
                    if announced then c.fps else 0, 0),
         None, 0)
  }

  const EMPTY_PLAIN := Plain([], 0, 0)

  /** The whole statement: a run that does not overflow selects, at every wake, exactly what a
      queue keeping every frame selects, if and only if no wake loses its frame; and then each
      frame it spared is counted as a drop the plain queue makes later. */
  lemma SelectionsAgreeUnlessAWakeLoses(
    c: Clock, media: int, timedCatchUp: bool, capacity: nat, announced: bool, steps: seq<Step>)
    requires capacity >= 1 && Sorted(Published(steps)) && Distinct(Published(steps))
    requires Run(Started(c, media, timedCatchUp, capacity, announced), steps).0.queue.stats.overflowDrops == 0
    ensures var s := Started(c, media, timedCatchUp, capacity, announced);
            var (end, selections) := Run(s, steps);
            var (plain, reference) := PlainRun(EMPTY_PLAIN, s, steps);
            && (selections == reference <==> !RunLoses(s, steps))
            && (!RunLoses(s, steps) ==>
                  end.queue.stats.coalescedDrops + end.released + end.queue.stats.cleared
                  == plain.passedOver + plain.cleared + |plain.frames| - |Pending(end)|)
  {
    var s := Started(c, media, timedCatchUp, capacity, announced);
    assert EMPTY_PLAIN.frames + Published(steps) == Published(steps);
    RunAgreesUnlessItLoses(s, EMPTY_PLAIN, steps);
  }

  ghost predicate Quiet(steps: seq<Step>) {
    forall i :: 0 <= i < |steps| && steps[i].Wake? ==> steps[i].before == [] && steps[i].after == []
  }

  lemma {:induction false} QuietRunLosesNothing(s: Loop, steps: seq<Step>)
    requires s.capacity >= 1 && Quiet(steps)
    ensures !RunLoses(s, steps)
    decreases |steps|
  {
    if steps != [] {
      if steps[0].Wake? {
        QuietWakeLosesNothing(s, steps[0].now);
      }
      QuietRunLosesNothing(Stepped(s, steps[0]).0, steps[1..]);
    }
  }

  /** In particular nothing changes while every frame arrives between wakes, however frames
      are held, queued and released. */
  lemma ReleaseKeepsEverySelection(
    c: Clock, media: int, timedCatchUp: bool, capacity: nat, announced: bool, steps: seq<Step>)
    requires capacity >= 1 && Sorted(Published(steps)) && Distinct(Published(steps)) && Quiet(steps)
    requires Run(Started(c, media, timedCatchUp, capacity, announced), steps).0.queue.stats.overflowDrops == 0
    ensures var s := Started(c, media, timedCatchUp, capacity, announced);
            Run(s, steps).1 == PlainRun(EMPTY_PLAIN, s, steps).1
  {
    QuietRunLosesNothing(Started(c, media, timedCatchUp, capacity, announced), steps);
    SelectionsAgreeUnlessAWakeLoses(c, media, timedCatchUp, capacity, announced, steps);
  }

  // --------------------------------------------------------- losses that do happen

  const AT_60: Clock := Clock(60, 0, DEFAULT_CATCH_UP, 1)
  const EARLY: Frame := Frame(100_000, 1, 1)
  const LATER: Frame := Frame(200_000, 1, 2)

  lemma TicksAt60()
    ensures AT_60.Deadline(1) == 166_666 && AT_60.Deadline(2) == 333_333
    ensures AT_60.NextDeadline() == 166_666 && AT_60.catchUp == 700_000
  {
  }

  /** Held frames: at 60 fps a frame stamped 10 ms arrives after the flush of the wake for the
      tick at 16.7 ms and is held. The wake selects nothing, on time and late, where the plain
      queue selects the frame. */
  lemma HeldFrameCanMissItsTick(now: int)
    requires now == 166_666 || now == 216_666
    ensures var s, wake := Started(AT_60, 0, true, 20, true), Wake(now, [Arrival(EARLY, true)], []);
            && Stepped(s, wake).1 == None
            && PlainStepped(EMPTY_PLAIN, s, wake).1 == Some(EARLY)
            && WakeLoses(s, now, wake.before, wake.after)
  {
    var s, a := Started(AT_60, 0, true, 20, true), Arrival(EARLY, true);
    TicksAt60();
    assert ArrivedAll(s, [a]) == Arrived(s, a);
    assert FramesIn([a]) == [EARLY];
    assert DueAt(s, now) == if now == 166_666 then None else Some(166_666);
    DueCountOfBoundary([EARLY], 166_666, 1);
  }

  const EARLY_QUEUED: Loop := Stepped(Started(AT_60, 0, true, 20, true), Arrive(Arrival(EARLY, false))).0

  lemma EarlyIsQueued()
    ensures var announced := Announcing(EARLY_QUEUED, 216_666);
            && EARLY_QUEUED.capacity == announced.capacity == 20
            && EARLY_QUEUED.queue.frames == announced.queue.frames == [EARLY]
            && EARLY_QUEUED.held == announced.held == None && !announced.queue.stopped
            && announced.queue.nextTick == 333_333 && announced.queue.tickFps == 60
    ensures DueAt(EARLY_QUEUED, 216_666) == Some(166_666)
  {
    TicksAt60();
  }

  /** Queued frames: the same frame is queued in time, and another arrives after the wake, late,
      announced the following tick. It releases the first, and the wake selects nothing. */
  lemma QueuedFrameCanLoseItsTick()
    ensures WakeLoses(EARLY_QUEUED, 216_666, [], [Arrival(LATER, false)])
    ensures Woken(EARLY_QUEUED, 216_666, [], [Arrival(LATER, false)]).1 == None
  {
    EarlyIsQueued();
    var announced, queued := Announcing(EARLY_QUEUED, 216_666), Arrival(LATER, false);
    assert ArrivedAll(announced, [queued]) == Arrived(announced, queued);
    assert Arrived(announced, queued).queue.frames == [LATER];
    DueCountOfBoundary([LATER], 166_666, 0);
  }

  /** The plain queue selects the first of the two. */
  lemma PlainQueueKeepsIt()
    ensures PlainStepped(Plain([EARLY], 0, 0), EARLY_QUEUED, Wake(216_666, [], [Arrival(LATER, false)])).1 == Some(EARLY)
  {
    EarlyIsQueued();
    assert FramesIn([Arrival(LATER, false)]) == [LATER];
    DueCountOfBoundary([EARLY, LATER], 166_666, 1);
  }

  /** Held instead, that second frame would have cost the first nothing. */
  lemma HeldFrameWouldNotLoseIt()
    ensures Stepped(EARLY_QUEUED, Wake(216_666, [], [Arrival(LATER, true)])).1 == Some(EARLY)
  {
    EarlyIsQueued();
    var announced, held := Announcing(EARLY_QUEUED, 216_666), Arrival(LATER, true);
    assert ArrivedAll(announced, [held]) == Arrived(announced, held);
    DueCountOfBoundary([EARLY], 166_666, 1);
  }
}
