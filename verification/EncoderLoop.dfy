/** The objects behind the selection loop: the cadence, the frame queue and capture's
    held frame. `Arrive`, `Flush`, `Announce` and `Take` are the pieces between which the two
    threads interleave; each is proved to be its piece of a `FrameSelection.Loop` step. */
module EncoderLoop {
  import opened Basics
  import opened EncoderCadence
  import opened FrameQueue
  import opened FrameSelection
  import SelectionRace

  class HeldFrame {
    var held: Option<Frame>
    ghost var released: nat

    constructor ()
      ensures held == None && released == 0
    {
      held, released := None, 0;
    }

    method Take() returns (frame: Frame)
      requires held.Some?
      modifies this`held
      ensures held == None && frame == old(held).value
    {
      frame := held.value;
      held := None;
    }
  }

  class SelectionLoop {
    const cadence: Cadence
    const queue: FrameQueue
    const hold: HeldFrame
    const media: int
    const timedCatchUp: bool

    ghost function State(): Loop
      reads this, cadence, queue, hold
    {
      Loop(cadence.State(), media, timedCatchUp, queue.capacity, queue.State(), hold.held, hold.released)
    }

    constructor (fps: int, now: int, media: int, timedCatchUp: bool, capacity: nat)
      requires capacity >= 1
      ensures fresh(cadence) && fresh(queue) && fresh(hold)
      ensures State() == SelectionRace.Started(Clock(Max(1, Min(240, fps)), now, DEFAULT_CATCH_UP, 1),
                                               media, timedCatchUp, capacity, false)
    {
      cadence := new Cadence(fps, now, DEFAULT_CATCH_UP);
      queue := new FrameQueue(capacity);
      hold := new HeldFrame();
      this.media, this.timedCatchUp := media, timedCatchUp;
    }

    // Capture publishes a frame; with a deadline announced the newest one is held unprepared.
    method Arrive(frame: Frame, nextDeadline: int)
      requires queue.capacity >= 1
      modifies queue, hold
      ensures State() == Arrived(old(State()), Arrival(frame, nextDeadline > 0))
    {
      if hold.held.Some? {
        var superseded := queue.WouldSupersede(hold.held.value.pts, frame.pts);
        var older := hold.Take();
        if superseded {
          hold.released := hold.released + 1;
        } else {
          queue.Push(older);
        }
      }
      if nextDeadline <= 0 {
        queue.Push(frame);
        return;
      }
      hold.held := Some(frame);
    }

    // A wake first queues what capture holds.
    method Flush()
      requires queue.capacity >= 1
      modifies queue, hold
      ensures State() == Flushed(old(State()))
    {
      if hold.held.Some? {
        var newest := hold.Take();
        queue.Push(newest);
      }
    }

    // It advances the clock, announces the following tick and decides how to select.
    method Announce(now: int) returns (due: Option<int>)
      modifies cadence, queue
      ensures State() == Announcing(old(State()), now)
      ensures due == DueAt(old(State()), now)
    {
      ghost var clock := cadence.State();
      var tick := cadence.Advance(now);
      var following := cadence.DeadlineOf(cadence.next);
      assert following == clock.Advanced(now).NextDeadline();
      queue.AnnounceSelectionTicks(media + following, cadence.fps);
      if timedCatchUp && SelectByDeadline(following <= now, tick.lateness) {
        due := Some(media + tick.deadline);
      } else {
        due := None;
      }
    }

    // It selects, by the deadline or simply the newest.
    method Take(due: Option<int>) returns (selected: Option<Frame>)
      modifies queue
      ensures (State(), selected) == Took(old(State()), due)
    {
      if due.Some? {
        selected := queue.ConsumeLatestAtOrBefore(due.value);
      } else {
        selected := queue.ConsumeAllAndGetLatest();
      }
    }

    // A wake during which capture publishes nothing.
    method Wake(now: int) returns (selected: Option<Frame>)
      requires queue.capacity >= 1
      modifies cadence, queue, hold
      ensures (State(), selected) == Woken(old(State()), now, [], [])
    {
      ghost var s := State();
      Flush();
      var due := Announce(now);
      selected := Take(due);
      QuietWake(s, now);
    }

    method Clear()
      requires queue.capacity >= 1
      modifies queue, hold
      ensures State() == Stepped(old(State()), ClearAll).0
    {
      queue.Clear();
      if hold.held.Some? {
        var dropped := hold.Take();
        hold.released := hold.released + 1;
      }
    }
  }
}
