/** The encoder's tick clock: absolute rational deadlines with bounded catch-up. */
module EncoderCadence {
  import opened Arithmetic
  import opened Basics

  const TIMEBASE: int := 10_000_000
  const DEFAULT_CATCH_UP: int := 700_000

  type Rate = fps: int | 1 <= fps <= 240 witness 60

  datatype Tick = Tick(deadline: int, lateness: int, skipped: nat)

  /** The clock as a value. Deadlines are what the class below computes in
      overflow-avoiding pieces: tick `k` is due at `anchor + floor(k * T / fps)`. */
  datatype Clock = Clock(fps: Rate, anchor: int, catchUp: nat, next: nat) {

    function Deadline(tick: nat): int {
      anchor + tick * TIMEBASE / fps
    }

    function NextDeadline(): int {
      Deadline(next)
    }

    /** The number of the last tick due at or before `now`. */
    function LatestTick(now: int): nat {
      if now < anchor then 0 else ((now - anchor + 1) * fps - 1) / TIMEBASE
    }

    /** The tick a wake at `now` delivers. */
    function TickFor(now: int): nat {
      if now - NextDeadline() <= catchUp then next else Max(next, LatestTick(now))
    }

    function Advanced(now: int): Clock {
      this.(next := TickFor(now) + 1)
    }
  }

  /** The split form the clock evaluates is the rational deadline. */
  lemma SplitDeadline(tick: nat, fps: Rate)
    ensures tick / fps * TIMEBASE + tick % fps * TIMEBASE / fps == tick * TIMEBASE / fps
  {
    var q, r := tick / fps, tick % fps;
    assert tick == q * fps + r;
    var tail := r * TIMEBASE / fps;
    DivisionBounds(r * TIMEBASE, fps);
    assert tick * TIMEBASE == q * fps * TIMEBASE + r * TIMEBASE;
    assert (q * TIMEBASE + tail) * fps == q * fps * TIMEBASE + tail * fps;
    DivisionIsUnique(tick * TIMEBASE, q * TIMEBASE + tail, fps);
  }

  /** The split form of the inverse is the closed form. */
  lemma SplitInverse(elapsed: nat, fps: Rate)
    ensures elapsed / TIMEBASE * fps + ((elapsed % TIMEBASE + 1) * fps - 1) / TIMEBASE
         == ((elapsed + 1) * fps - 1) / TIMEBASE
  {
    var q, r := elapsed / TIMEBASE, elapsed % TIMEBASE;
    assert elapsed == q * TIMEBASE + r;
    var tail := ((r + 1) * fps - 1) / TIMEBASE;
    assert (elapsed + 1) * fps - 1 == q * fps * TIMEBASE + ((r + 1) * fps - 1);
    DivisionIsUnique((elapsed + 1) * fps - 1, q * fps + tail, TIMEBASE);
  }

  /** Ticks are strictly ordered in time at every supported rate. */
  lemma DeadlinesIncrease(c: Clock, i: nat, j: nat)
    requires i < j
    ensures c.Deadline(i) < c.Deadline(j)
  {
    var d: int := c.fps;
    var I, J := i * TIMEBASE / d, j * TIMEBASE / d;
    DivisionBounds(i * TIMEBASE, d);
    DivisionBounds(j * TIMEBASE, d);
    assert (I + 1) * d == I * d + d;
    CancelLess(I + 1, J + 1, d);
  }

  /** Ticks after a given one are rational multiples of 1/fps away, exact to one unit. */
  lemma TicksWithinOneUnit(c: Clock, k: nat, m: nat)
    ensures var ahead := c.Deadline(k) + m * TIMEBASE / c.fps;
            ahead <= c.Deadline(k + m) <= ahead + 1
  {
    var d: int := c.fps;
    var a, b := k * TIMEBASE, m * TIMEBASE;
    assert (k + m) * TIMEBASE == a + b;
    var A, B, S := a / d, b / d, (a + b) / d;
    DivisionBounds(a, d);
    DivisionBounds(b, d);
    DivisionBounds(a + b, d);
    assert (A + B) * d == A * d + B * d;
    assert (A + 1) * d + (B + 1) * d == (A + B + 2) * d;
    CancelLess(A + B, S + 1, d);
    CancelLess(S, A + B + 2, d);
  }

  /** `LatestTick` inverts the deadline function, rounded boundaries included. */
  lemma LatestTickIsLatest(c: Clock, now: int, k: nat)
    requires c.anchor <= now
    ensures c.Deadline(k) <= now <==> k <= c.LatestTick(now)
  {
    var d: int := c.fps;
    var e, K := now - c.anchor, k * TIMEBASE / d;
    DivisionBounds(k * TIMEBASE, d);
    DivisionBounds((e + 1) * d - 1, TIMEBASE);
    if K <= e {
      MulMonotone(K + 1, e + 1, d);
    }
    if k * TIMEBASE < (e + 1) * d {
      CancelLess(K, e + 1, d);
    }
  }

  /** A short delay is caught up tick by tick, so the clip has no gap; only a wake
      later than the catch-up budget skips, and then to the newest tick already due. */
  lemma AdvanceKeepsSchedule(c: Clock, now: int)
    ensures now - c.NextDeadline() <= c.catchUp ==> c.TickFor(now) == c.next
    ensures now - c.NextDeadline() > c.catchUp ==>
              && c.Deadline(c.TickFor(now)) <= now < c.Advanced(now).NextDeadline()
              && forall k: nat :: c.Deadline(k) <= now ==> k <= c.TickFor(now)
    ensures c.next <= c.TickFor(now) < c.Advanced(now).next
  {
    if now - c.NextDeadline() > c.catchUp {
      assert c.Deadline(c.next) >= c.anchor by {
        DivisionMonotone(0, c.next * TIMEBASE, c.fps);
      }
      LatestTickIsLatest(c, now, c.next);
      LatestTickIsLatest(c, now, c.LatestTick(now));
      LatestTickIsLatest(c, now, c.LatestTick(now) + 1);
      forall k: nat | c.Deadline(k) <= now
        ensures k <= c.TickFor(now)
      {
        LatestTickIsLatest(c, now, k);
      }
    }
  }

  // ------------------------------------------------------------------ runs of wakes

  function AfterWakes(c: Clock, wakes: seq<int>): (d: Clock)
    ensures d == c.(next := d.next)
    decreases |wakes|
  {
    if wakes == [] then c else AfterWakes(c.Advanced(wakes[0]), wakes[1..])
  }

  /** The numbers of the ticks a run of wakes delivers. */
  function Delivered(c: Clock, wakes: seq<int>): seq<nat>
    decreases |wakes|
  {
    if wakes == [] then [] else [c.TickFor(wakes[0])] + Delivered(c.Advanced(wakes[0]), wakes[1..])
  }

  /** Every wake comes within the catch-up budget of the tick it expects. */
  predicate Prompt(c: Clock, wakes: seq<int>)
    decreases |wakes|
  {
    wakes != [] ==> wakes[0] - c.NextDeadline() <= c.catchUp && Prompt(c.Advanced(wakes[0]), wakes[1..])
  }

  /** No tick is delivered twice or out of order, and every tick not delivered was skipped. */
  lemma {:induction false} TicksAreDeliveredInOrder(c: Clock, wakes: seq<int>)
    ensures var ticks := Delivered(c, wakes);
            && |ticks| == |wakes|
            && (forall i :: 0 <= i < |ticks| ==> c.next <= ticks[i] < AfterWakes(c, wakes).next)
            && (forall i, j :: 0 <= i < j < |ticks| ==> ticks[i] < ticks[j])
            && (wakes != [] ==> ticks[|ticks| - 1] + 1 == AfterWakes(c, wakes).next)
    decreases |wakes|
  {
    if wakes != [] {
      AdvanceKeepsSchedule(c, wakes[0]);
      TicksAreDeliveredInOrder(c.Advanced(wakes[0]), wakes[1..]);
    }
  }

  /** While wakes stay within the catch-up budget each tick is delivered, one a wake. */
  lemma {:induction false} PromptWakesSkipNothing(c: Clock, wakes: seq<int>)
    requires Prompt(c, wakes)
    ensures |Delivered(c, wakes)| == |wakes| && AfterWakes(c, wakes).next == c.next + |wakes|
    ensures forall i :: 0 <= i < |wakes| ==> Delivered(c, wakes)[i] == c.next + i
    decreases |wakes|
  {
    if wakes != [] {
      PromptWakesSkipNothing(c.Advanced(wakes[0]), wakes[1..]);
    }
  }

  class Cadence {
    const fps: Rate
    const anchor: int
    const catchUp: nat
    var next: nat

    function State(): Clock
      reads this
    {
      Clock(fps, anchor, catchUp, next)
    }

    constructor (requestedFps: int, now: int, requestedCatchUp: int)
      ensures State() == Clock(Max(1, Min(240, requestedFps)), now, Max(0, requestedCatchUp), 1)
    {
      fps := Max(1, Min(240, requestedFps));
      anchor := now;
      catchUp := Max(0, requestedCatchUp);
      next := 1;
    }

    method DeadlineOf(tick: nat) returns (due: int)
      ensures due == State().Deadline(tick)
    {
      due := anchor + (tick / fps * TIMEBASE + tick % fps * TIMEBASE / fps);
      SplitDeadline(tick, fps);
    }

    method Advance(now: int) returns (tick: Tick)
      modifies this`next
      ensures State() == old(State()).Advanced(now)
      ensures tick.deadline == old(State()).Deadline(old(State()).TickFor(now))
      ensures tick.lateness == Max(0, now - old(State()).NextDeadline())
      ensures tick.skipped == old(State()).TickFor(now) - old(next)
    {
      var due := DeadlineOf(next);
      var lateness := Max(0, now - due);
      if lateness <= catchUp {
        tick := Tick(due, lateness, 0);
        next := next + 1;
        return;
      }
      assert due >= anchor by {
        DivisionMonotone(0, next * TIMEBASE, fps);
      }
      var elapsed: nat := Max(0, now - anchor);
      SplitInverse(elapsed, fps);
      var elapsedTicks := elapsed / TIMEBASE * fps + ((elapsed % TIMEBASE + 1) * fps - 1) / TIMEBASE;
      var selected := Max(next, elapsedTicks);
      var selectedDue := DeadlineOf(selected);
      tick := Tick(selectedDue, lateness, selected - next);
      next := selected + 1;
    }
  }
}
