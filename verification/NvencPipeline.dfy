/** The encoder's slot pipeline as a step system: the encode thread reserves, fills and
    submits slots; the output side locks and retires them, on its own thread in asynchronous
    mode. The steps interleave freely. */
module NvencPipeline {
  import opened Basics
  import opened NvencSurfaces

  /** One drained output: the frame its slot was stamped with, and the pixels encoded. */
  datatype Packet = Packet(frame: Source, pixels: Content)

  /** How a prepared frame left the queue of prepared inputs (history). */
  datatype Left = Submitted(frame: Source) | InputDropped(frame: Source) | Failed(frame: Source)

  /** `reserved` is the slot of the encode call in progress; `draining` the output locked but
      not yet retired. `accepted`, `left` and `drained` are history. */
  datatype Pipe = Pipe(
    slots: seq<OutputSlot>, reserved: Option<nat>, prepared: seq<nat>, order: seq<nat>, count: int,
    draining: Option<Packet>, nextTexture: nat, surfaceDrops: nat,
    accepted: seq<Source>, left: seq<Left>, drained: seq<Packet>)

  const EMPTY_SLOT := OutputSlot(false, None, None, 0, false, NO_SURFACE)

  function Initial(n: nat): Pipe {
    Pipe(seq(n, i => EMPTY_SLOT), None, [], [], 0, None, 0, 0, [], [], [])
  }

  datatype Step =
    | Reserve(slot: nat, now: int)
    | NoSlotFree
    | CreateBuffer
    | Fill(after: Surface, nextTexture: nat)
    | Accept(frame: Source)
    | Abandon
    | SubmitFront
    | FailFront
    | LockOldest
    | RetireOldest
    | ReleaseSurface(slot: nat, keepBuffer: bool)

  function WithSlot(s: Pipe, i: nat, slot: OutputSlot): Pipe
    requires i < |s.slots|
  {
    s.(slots := s.slots[i := slot])
  }

  /** Dropping a reservation clears the frame state and keeps the surface cache. */
  function Freed(slot: OutputSlot): OutputSlot {
    slot.(inFlight := false, mapped := None, frame := None)
  }

  predicate InputInFlight(s: Pipe, texture: nat) {
    exists j :: 0 <= j < |s.slots| && s.slots[j].inFlight && s.slots[j].mapped == Some(texture)
  }

  predicate Enabled(s: Pipe, step: Step) {
    match step
    case Reserve(i, _) => s.reserved == None && i < |s.slots| && !s.slots[i].inFlight
    case NoSlotFree => s.reserved == None && forall i :: 0 <= i < |s.slots| ==> s.slots[i].inFlight
    case CreateBuffer => s.reserved.Some? && s.reserved.value < |s.slots|
    case Fill(after, next) =>
      && s.reserved.Some? && s.reserved.value < |s.slots|
      && Updates(s.slots[s.reserved.value].surface, after, s.nextTexture, next)
    case Accept(frame) =>
      && s.reserved.Some? && s.reserved.value < |s.slots|
      && s.slots[s.reserved.value].buffer && Shows(s.slots[s.reserved.value].surface.texture, frame)
    case Abandon => s.reserved.Some? && s.reserved.value < |s.slots|
    case SubmitFront => CanLeave(s)
    case FailFront => CanLeave(s)
    case LockOldest =>
      && s.order != [] && s.draining == None && s.order[0] < |s.slots|
      && s.slots[s.order[0]].frame.Some? && s.slots[s.order[0]].surface.texture.Some?
    case RetireOldest => s.order != [] && s.draining.Some? && s.order[0] < |s.slots|
    case ReleaseSurface(i, _) => i < |s.slots| && !s.slots[i].inFlight
  }

  predicate CanLeave(s: Pipe) {
    && s.prepared != [] && s.prepared[0] < |s.slots|
    && s.slots[s.prepared[0]].frame.Some? && s.slots[s.prepared[0]].surface.texture.Some?
  }

  function Stepped(s: Pipe, step: Step): Pipe
    requires Enabled(s, step)
  {
    match step
    case Reserve(i, now) =>
      WithSlot(s, i, s.slots[i].(inFlight := true, lastReserved := now)).(reserved := Some(i))
    case NoSlotFree => s.(surfaceDrops := s.surfaceDrops + 1)
    case CreateBuffer => WithSlot(s, s.reserved.value, s.slots[s.reserved.value].(buffer := true))
    case Fill(after, next) => WithSlot(s, s.reserved.value, s.slots[s.reserved.value].(surface := after)).(nextTexture := next)
    case Accept(frame) =>
      var i := s.reserved.value;
      WithSlot(s, i, s.slots[i].(frame := Some(frame)))
        .(reserved := None, prepared := s.prepared + [i], accepted := s.accepted + [frame])
    case Abandon => WithSlot(s, s.reserved.value, Freed(s.slots[s.reserved.value])).(reserved := None)
    case SubmitFront =>
      var i := s.prepared[0];
      var slot := s.slots[i];
      if InputInFlight(s, slot.surface.texture.value.id) then
        WithSlot(s, i, Freed(slot)).(prepared := s.prepared[1..], left := s.left + [InputDropped(slot.frame.value)])
      else
        WithSlot(s, i, slot.(mapped := Some(slot.surface.texture.value.id)))
          .(prepared := s.prepared[1..], order := s.order + [i], count := s.count + 1,
            left := s.left + [Submitted(slot.frame.value)])
    case FailFront =>
      var i := s.prepared[0];
      WithSlot(s, i, Freed(s.slots[i])).(prepared := s.prepared[1..], left := s.left + [Failed(s.slots[i].frame.value)])
    case LockOldest =>
      var i := s.order[0];
      var slot := s.slots[i];
      WithSlot(s, i, slot.(mapped := None, frame := None))
        .(draining := Some(Packet(slot.frame.value, slot.surface.texture.value.content)))
    case RetireOldest =>
      var i := s.order[0];
      WithSlot(s, i, s.slots[i].(inFlight := false))
        .(order := s.order[1..], count := s.count - 1, draining := None, drained := s.drained + [s.draining.value])
    case ReleaseSurface(i, keep) =>
      var slot := Freed(s.slots[i]);
      WithSlot(s, i, slot.(buffer := slot.buffer && keep, surface := NO_SURFACE))
  }

  ghost predicate IsRun(states: seq<Pipe>, steps: seq<Step>, n: nat) {
    && |states| == |steps| + 1 && states[0] == Initial(n)
    && forall k :: 0 <= k < |steps| ==> Enabled(states[k], steps[k]) && states[k + 1] == Stepped(states[k], steps[k])
  }

  // -------------------------------------------------------------- the invariant

  predicate Uses(s: Pipe, i: nat) {
    s.reserved == Some(i) || i in s.prepared || i in s.order
  }

  ghost predicate NoRepeats(q: seq<nat>) {
    forall i, j :: 0 <= i < j < |q| ==> q[i] != q[j]
  }

  /** A slot is marked in flight exactly when one user holds it, and only one. */
  ghost predicate Owned(s: Pipe) {
    && NoRepeats(s.prepared) && NoRepeats(s.order)
    && (forall i <- s.prepared :: i !in s.order && s.reserved != Some(i))
    && (forall i <- s.order :: s.reserved != Some(i))
    && (forall i: nat :: Uses(s, i) ==> i < |s.slots|)
    && (forall i :: 0 <= i < |s.slots| ==> (s.slots[i].inFlight <==> Uses(s, i)))
    && s.count == |s.order|
    && (s.draining.Some? ==> s.order != [])
  }

  /** The submitted slots whose output is not locked yet. */
  function Live(s: Pipe): seq<nat> {
    if s.draining.Some? && s.order != [] then s.order[1..] else s.order
  }

  /** A slot waiting for its output has its buffer and shows the frame it is stamped with. */
  predicate LoadedAt(slots: seq<OutputSlot>, i: nat) {
    i < |slots| && slots[i].buffer && slots[i].frame.Some? && Shows(slots[i].surface.texture, slots[i].frame.value)
  }

  ghost predicate Loaded(s: Pipe) {
    && (forall i <- s.prepared :: LoadedAt(s.slots, i))
    && (forall i <- Live(s) :: LoadedAt(s.slots, i))
  }

  /** No two slots share a texture. */
  ghost predicate Private(s: Pipe) {
    && (forall i :: 0 <= i < |s.slots| && s.slots[i].surface.texture.Some? ==> s.slots[i].surface.texture.value.id < s.nextTexture)
    && (forall i, j :: 0 <= i < j < |s.slots| && s.slots[i].surface.texture.Some? && s.slots[j].surface.texture.Some? ==>
          s.slots[i].surface.texture.value.id != s.slots[j].surface.texture.value.id)
  }

  predicate MappedAt(slot: OutputSlot, live: bool) {
    && (slot.mapped.Some? <==> live)
    && (slot.mapped.Some? ==> slot.surface.texture.Some? && slot.mapped.value == slot.surface.texture.value.id)
  }

  /** Exactly the live slots are mapped, each to its own texture. */
  ghost predicate Mapped(s: Pipe) {
    forall i :: 0 <= i < |s.slots| ==> MappedAt(s.slots[i], i in Live(s))
  }

  ghost predicate Inv(s: Pipe) {
    Owned(s) && Loaded(s) && Private(s) && Mapped(s)
  }

  lemma SplitFront(q: seq<nat>)
    requires q != [] && NoRepeats(q)
    ensures q[0] in q && q[0] !in q[1..] && NoRepeats(q[1..])
    ensures forall i: nat :: i in q <==> i == q[0] || i in q[1..]
  {
    assert q == [q[0]] + q[1..];
  }

  lemma SplitQueues(s: Pipe)
    requires NoRepeats(s.prepared) && NoRepeats(s.order)
    ensures s.prepared != [] ==>
              && s.prepared[0] in s.prepared && s.prepared[0] !in s.prepared[1..] && NoRepeats(s.prepared[1..])
              && (forall i: nat :: i in s.prepared <==> i == s.prepared[0] || i in s.prepared[1..])
    ensures s.order != [] ==>
              && s.order[0] in s.order && s.order[0] !in s.order[1..] && NoRepeats(s.order[1..])
              && (forall i: nat :: i in s.order <==> i == s.order[0] || i in s.order[1..])
  {
    if s.prepared != [] { SplitFront(s.prepared); }
    if s.order != [] { SplitFront(s.order); }
  }

  /** Slots change hands: every step moves one slot between its possible users. */
  lemma StepMovesUse(s: Pipe, step: Step, i: nat)
    requires Owned(s) && Enabled(s, step)
    ensures Uses(Stepped(s, step), i) ==> i < |s.slots|
    ensures i < |s.slots| ==> (Stepped(s, step).slots[i].inFlight <==> Uses(Stepped(s, step), i))
  {
    SplitQueues(s);
    assert Uses(s, i) ==> i < |s.slots|;
  }

  lemma StepKeepsDisjoint(s: Pipe, step: Step)
    requires Owned(s) && Enabled(s, step)
    ensures var t := Stepped(s, step);
            && NoRepeats(t.prepared) && NoRepeats(t.order)
            && (forall i <- t.prepared :: i !in t.order && t.reserved != Some(i))
            && (forall i <- t.order :: t.reserved != Some(i))
  {
    SplitQueues(s);
    if step.Reserve? {
      assert !Uses(s, step.slot);
    }
  }

  lemma StepKeepsOwned(s: Pipe, step: Step)
    requires Owned(s) && Enabled(s, step)
    ensures Owned(Stepped(s, step))
  {
    var t := Stepped(s, step);
    StepKeepsDisjoint(s, step);
    forall i: nat | Uses(t, i)
      ensures i < |t.slots|
    {
      StepMovesUse(s, step, i);
    }
    forall i | 0 <= i < |t.slots|
      ensures t.slots[i].inFlight <==> Uses(t, i)
    {
      StepMovesUse(s, step, i);
    }
  }

  /** A slot queued after a step was queued before it, or is the one just accepted. */
  lemma StepMovesQueues(s: Pipe, step: Step, i: nat)
    requires Owned(s) && Enabled(s, step)
    ensures var t := Stepped(s, step);
            && (i in t.prepared ==> i in s.prepared || (step.Accept? && s.reserved == Some(i)))
            && (i in t.order ==> i in s.order || (step.SubmitFront? && i == s.prepared[0]))
            && (i in Live(t) ==> i in Live(s) || (step.SubmitFront? && i == s.prepared[0]))
            && (i in Live(s) && i !in Live(t) ==> step.LockOldest? && i == s.order[0])
            && (step.LockOldest? ==> s.order[0] !in Live(t))
            && (step.SubmitFront? || step.FailFront? ==> s.prepared[0] !in t.prepared)
            && (step.SubmitFront? && s.prepared[0] in t.order ==> s.prepared[0] in Live(t))
  {
    SplitQueues(s);
    if step.SubmitFront? {
      var t := Stepped(s, step);
      assert t.order != s.order ==> Live(t) == Live(s) + [s.prepared[0]];
    }
  }

  lemma StepKeepsLoadedAt(s: Pipe, step: Step, i: nat)
    requires Owned(s) && Loaded(s) && Enabled(s, step)
    requires i in Stepped(s, step).prepared || i in Live(Stepped(s, step))
    ensures LoadedAt(Stepped(s, step).slots, i)
  {
    StepMovesQueues(s, step, i);
    if i in s.prepared || i in Live(s) {
      assert Uses(s, i) && LoadedAt(s.slots, i);
    }
  }

  lemma StepKeepsLoaded(s: Pipe, step: Step)
    requires Owned(s) && Loaded(s) && Enabled(s, step)
    ensures Loaded(Stepped(s, step))
  {
    var t := Stepped(s, step);
    forall i | i in t.prepared || i in Live(t)
      ensures LoadedAt(t.slots, i)
    {
      StepKeepsLoadedAt(s, step, i);
    }
  }

  lemma StepKeepsPrivate(s: Pipe, step: Step)
    requires Private(s) && Enabled(s, step)
    ensures Private(Stepped(s, step))
  {
  }

  lemma StepKeepsMappedAt(s: Pipe, step: Step, i: nat)
    requires Owned(s) && Mapped(s) && Enabled(s, step) && i < |s.slots|
    ensures MappedAt(Stepped(s, step).slots[i], i in Live(Stepped(s, step)))
  {
    StepMovesQueues(s, step, i);
    assert Uses(s, i) <==> s.slots[i].inFlight;
    assert MappedAt(s.slots[i], i in Live(s));
    assert i in Live(s) ==> i in s.order;
    if step.SubmitFront? && i == s.prepared[0] {
      assert i in s.prepared;
      assert Stepped(s, step).order != s.order ==> i in Stepped(s, step).order by {
        assert Stepped(s, step).order != s.order ==> Stepped(s, step).order[|s.order|] == i;
      }
    }
  }

  lemma StepKeepsMapped(s: Pipe, step: Step)
    requires Owned(s) && Mapped(s) && Enabled(s, step)
    ensures Mapped(Stepped(s, step))
  {
    forall i | 0 <= i < |s.slots|
      ensures MappedAt(Stepped(s, step).slots[i], i in Live(Stepped(s, step)))
    {
      StepKeepsMappedAt(s, step, i);
    }
  }

  // --------------------------------------------------------------- the history

  const NO_FRAME := Source(0, 0, 0, 0, 0, false, Unspecified)

  function FrameAt(slots: seq<OutputSlot>, i: nat): Source {
    if i < |slots| && slots[i].frame.Some? then slots[i].frame.value else NO_FRAME
  }

  function FramesOf(slots: seq<OutputSlot>, q: seq<nat>): seq<Source> {
    seq(|q|, k requires 0 <= k < |q| => FrameAt(slots, q[k]))
  }

  function LeftFrames(left: seq<Left>): seq<Source> {
    seq(|left|, k requires 0 <= k < |left| => left[k].frame)
  }

  /** The submitted frames, in submission order. */
  function SubmittedFrames(left: seq<Left>): seq<Source> {
    if left == [] then []
    else
      var last := left[|left| - 1];
      SubmittedFrames(left[..|left| - 1]) + if last.Submitted? then [last.frame] else []
  }

  function PacketFrames(packets: seq<Packet>): seq<Source> {
    seq(|packets|, k requires 0 <= k < |packets| => packets[k].frame)
  }

  function Locked(s: Pipe): seq<Packet> {
    s.drained + if s.draining.Some? then [s.draining.value] else []
  }

  /** Frames leave in the order they came, and outputs in the order of submission. */
  ghost predicate InOrder(s: Pipe) {
    && s.accepted == LeftFrames(s.left) + FramesOf(s.slots, s.prepared)
    && SubmittedFrames(s.left) == PacketFrames(Locked(s)) + FramesOf(s.slots, Live(s))
    && (forall p <- Locked(s) :: p.pixels == p.frame.image)
    && (forall l <- s.left :: !l.InputDropped?)
  }

  /** Queued slots keep their frames while another slot changes. */
  lemma FramesElsewhere(slots: seq<OutputSlot>, i: nat, after: OutputSlot, q: seq<nat>)
    requires i < |slots| && (i !in q || after.frame == slots[i].frame)
    ensures FramesOf(slots[i := after], q) == FramesOf(slots, q)
  {
  }

  lemma FramesSplit(slots: seq<OutputSlot>, q: seq<nat>)
    requires q != []
    ensures FramesOf(slots, q) == [FrameAt(slots, q[0])] + FramesOf(slots, q[1..])
  {
  }

  lemma FramesAppend(slots: seq<OutputSlot>, q: seq<nat>, i: nat)
    ensures FramesOf(slots, q + [i]) == FramesOf(slots, q) + [FrameAt(slots, i)]
  {
  }

  lemma LeftAppend(left: seq<Left>, last: Left)
    ensures LeftFrames(left + [last]) == LeftFrames(left) + [last.frame]
    ensures SubmittedFrames(left + [last]) == SubmittedFrames(left) + if last.Submitted? then [last.frame] else []
    ensures !last.InputDropped? && (forall l <- left :: !l.InputDropped?) ==>
              forall l <- left + [last] :: !l.InputDropped?
  {
    assert (left + [last])[..|left|] == left;
  }

  /** A prepared surface is never mapped already, so no prepared frame is dropped for it. */
  lemma PreparedInputIsNotInFlight(s: Pipe)
    requires Inv(s) && Enabled(s, SubmitFront)
    ensures !InputInFlight(s, s.slots[s.prepared[0]].surface.texture.value.id)
  {
    var i := s.prepared[0];
    SplitQueues(s);
    assert i !in s.order;
    forall j | 0 <= j < |s.slots| && s.slots[j].mapped.Some?
      ensures s.slots[j].mapped.value != s.slots[i].surface.texture.value.id
    {
      assert j in s.order;
    }
  }

  lemma MoveAcross<T>(a: seq<T>, x: T, b: seq<T>)
    ensures a + ([x] + b) == (a + [x]) + b
  {
  }

  lemma SubmitKeepsOrder(s: Pipe)
    requires InOrder(s) && Enabled(s, SubmitFront) && (s.draining.Some? ==> s.order != [])
    requires !InputInFlight(s, s.slots[s.prepared[0]].surface.texture.value.id)
    ensures InOrder(Stepped(s, SubmitFront))
  {
    var t := Stepped(s, SubmitFront);
    var i := s.prepared[0];
    assert Live(t) == Live(s) + [i];
    FramesElsewhere(s.slots, i, t.slots[i], t.prepared);
    FramesElsewhere(s.slots, i, t.slots[i], Live(t));
    FramesSplit(s.slots, s.prepared);
    FramesAppend(s.slots, Live(s), i);
    LeftAppend(s.left, Submitted(FrameAt(s.slots, i)));
    MoveAcross(LeftFrames(s.left), FrameAt(s.slots, i), FramesOf(s.slots, t.prepared));
  }

  lemma FailKeepsOrder(s: Pipe)
    requires InOrder(s) && Enabled(s, FailFront)
    requires s.prepared[0] !in s.prepared[1..] && s.prepared[0] !in Live(s)
    ensures InOrder(Stepped(s, FailFront))
  {
    var t := Stepped(s, FailFront);
    var i := s.prepared[0];
    FramesElsewhere(s.slots, i, t.slots[i], t.prepared);
    FramesElsewhere(s.slots, i, t.slots[i], Live(t));
    FramesSplit(s.slots, s.prepared);
    LeftAppend(s.left, Failed(FrameAt(s.slots, i)));
  }

  lemma AcceptKeepsOrder(s: Pipe, frame: Source)
    requires InOrder(s) && Enabled(s, Accept(frame))
    requires s.reserved.value !in s.prepared && s.reserved.value !in Live(s)
    ensures InOrder(Stepped(s, Accept(frame)))
  {
    var t := Stepped(s, Accept(frame));
    var i := s.reserved.value;
    FramesElsewhere(s.slots, i, t.slots[i], s.prepared);
    FramesElsewhere(s.slots, i, t.slots[i], Live(t));
    FramesAppend(t.slots, s.prepared, i);
  }

  lemma LockKeepsOrder(s: Pipe)
    requires InOrder(s) && Enabled(s, LockOldest)
    requires s.order[0] !in s.prepared && s.order[0] !in s.order[1..] && LoadedAt(s.slots, s.order[0])
    ensures InOrder(Stepped(s, LockOldest))
  {
    var t := Stepped(s, LockOldest);
    var i := s.order[0];
    FramesElsewhere(s.slots, i, t.slots[i], s.prepared);
    FramesElsewhere(s.slots, i, t.slots[i], Live(t));
    FramesSplit(s.slots, s.order);
    assert PacketFrames(Locked(t)) == PacketFrames(Locked(s)) + [FrameAt(s.slots, i)];
  }

  predicate Quiet(step: Step) {
    !step.SubmitFront? && !step.FailFront? && !step.Accept? && !step.LockOldest?
  }

  lemma QuietStepKeepsOrder(s: Pipe, step: Step)
    requires InOrder(s) && Enabled(s, step) && Quiet(step)
    requires step.Abandon? ==> s.reserved.value !in s.prepared && s.reserved.value !in Live(s)
    requires step.ReleaseSurface? ==> step.slot !in s.prepared && step.slot !in Live(s)
    ensures InOrder(Stepped(s, step))
  {
    var t := Stepped(s, step);
    assert t.prepared == s.prepared && Live(t) == Live(s) && Locked(t) == Locked(s);
    match step {
      case NoSlotFree =>
      case Reserve(i, _) => FramesElsewhereInBoth(s, t, i);
      case CreateBuffer => FramesElsewhereInBoth(s, t, s.reserved.value);
      case Fill(_, _) => FramesElsewhereInBoth(s, t, s.reserved.value);
      case Abandon => FramesElsewhereInBoth(s, t, s.reserved.value);
      case RetireOldest => FramesElsewhereInBoth(s, t, s.order[0]);
      case ReleaseSurface(i, _) => FramesElsewhereInBoth(s, t, i);
    }
  }

  lemma FramesElsewhereInBoth(s: Pipe, t: Pipe, i: nat)
    requires i < |s.slots| == |t.slots| && t.slots == s.slots[i := t.slots[i]]
    requires (i !in s.prepared && i !in Live(s)) || t.slots[i].frame == s.slots[i].frame
    ensures FramesOf(t.slots, s.prepared) == FramesOf(s.slots, s.prepared)
    ensures FramesOf(t.slots, Live(s)) == FramesOf(s.slots, Live(s))
  {
    FramesElsewhere(s.slots, i, t.slots[i], s.prepared);
    FramesElsewhere(s.slots, i, t.slots[i], Live(s));
  }

  lemma StepKeepsInOrder(s: Pipe, step: Step)
    requires Inv(s) && InOrder(s) && Enabled(s, step)
    ensures InOrder(Stepped(s, step))
  {
    SplitQueues(s);
    match step {
      case SubmitFront =>
        PreparedInputIsNotInFlight(s);
        SubmitKeepsOrder(s);
      case FailFront => FailKeepsOrder(s);
      case Accept(frame) => AcceptKeepsOrder(s, frame);
      case LockOldest =>
        assert LoadedAt(s.slots, s.order[0]);
        LockKeepsOrder(s);
      case ReleaseSurface(i, _) =>
        assert !Uses(s, i);
        QuietStepKeepsOrder(s, step);
      case _ => QuietStepKeepsOrder(s, step);
    }
  }

  lemma StepKeepsInv(s: Pipe, step: Step)
    requires Inv(s) && Enabled(s, step)
    ensures Inv(Stepped(s, step)) && |Stepped(s, step).slots| == |s.slots|
  {
    StepKeepsOwned(s, step);
    StepKeepsLoaded(s, step);
    StepKeepsPrivate(s, step);
    StepKeepsMapped(s, step);
  }

  lemma InitialInv(n: nat)
    ensures Inv(Initial(n)) && InOrder(Initial(n))
  {
  }

  lemma {:induction false} ReachableInv(states: seq<Pipe>, steps: seq<Step>, n: nat, k: nat)
    requires IsRun(states, steps, n) && k < |states|
    ensures Inv(states[k]) && InOrder(states[k]) && |states[k].slots| == n
  {
    if k == 0 {
      InitialInv(n);
    } else {
      ReachableInv(states, steps, n, k - 1);
      StepKeepsInv(states[k - 1], steps[k - 1]);
      StepKeepsInOrder(states[k - 1], steps[k - 1]);
    }
  }

  // ---------------------------------------------------------------- the theorems

  /** In every interleaving, a slot is marked in flight exactly when it is in exactly one of
      the reservation, the prepared queue and the in-flight order. */
  lemma SlotsHaveOneUser(states: seq<Pipe>, steps: seq<Step>, n: nat, k: nat, i: nat)
    requires IsRun(states, steps, n) && k < |states| && i < |states[k].slots|
    ensures var s := states[k];
            && s.count == |s.order|
            && (s.slots[i].inFlight <==> s.reserved == Some(i) || i in s.prepared || i in s.order)
            && !(i in s.prepared && i in s.order)
            && (s.reserved == Some(i) ==> i !in s.prepared && i !in s.order)
            && NoRepeats(s.prepared) && NoRepeats(s.order)
  {
    ReachableInv(states, steps, n, k);
  }

  /** Outputs leave in submission order, each with its own frame's metadata and pixels. */
  lemma OutputsFollowSubmissions(states: seq<Pipe>, steps: seq<Step>, n: nat, k: nat)
    requires IsRun(states, steps, n) && k < |states|
    ensures var s := states[k];
            && PacketFrames(s.drained) <= SubmittedFrames(s.left)
            && LeftFrames(s.left) <= s.accepted
            && forall p <- s.drained :: p.pixels == p.frame.image
  {
    ReachableInv(states, steps, n, k);
    var s := states[k];
    assert PacketFrames(Locked(s))[..|s.drained|] == PacketFrames(s.drained);
    forall p <- s.drained
      ensures p.pixels == p.frame.image
    {
      assert p in Locked(s);
    }
  }

  function FailedCount(left: seq<Left>): nat {
    if left == [] then 0
    else FailedCount(left[..|left| - 1]) + if left[|left| - 1].Failed? then 1 else 0
  }

  lemma {:induction false} LeftSplits(left: seq<Left>)
    requires forall l <- left :: !l.InputDropped?
    ensures |left| == |SubmittedFrames(left)| + FailedCount(left)
  {
    if left != [] {
      LeftSplits(left[..|left| - 1]);
    }
  }

  /** Every accepted frame is drained, prepared, in flight or lost to a failed submission:
      no frame is dropped because its input is still in flight. */
  lemma AcceptedFramesAreAccountedFor(states: seq<Pipe>, steps: seq<Step>, n: nat, k: nat)
    requires IsRun(states, steps, n) && k < |states|
    ensures var s := states[k];
            && |s.accepted| == |s.drained| + |s.order| + |s.prepared| + FailedCount(s.left)
            && forall l <- s.left :: !l.InputDropped?
  {
    ReachableInv(states, steps, n, k);
    LeftSplits(states[k].left);
  }

  lemma {:induction false} AllSubmitted(left: seq<Left>)
    requires FailedCount(left) == 0 && forall l <- left :: !l.InputDropped?
    ensures SubmittedFrames(left) == LeftFrames(left)
  {
    if left != [] {
      AllSubmitted(left[..|left| - 1]);
      LeftAppend(left[..|left| - 1], left[|left| - 1]);
      assert left[..|left| - 1] + [left[|left| - 1]] == left;
    }
  }

  /** An emptied pipeline has put out exactly the accepted frames, in order. */
  lemma DrainedPipelineLosesNothing(states: seq<Pipe>, steps: seq<Step>, n: nat, k: nat)
    requires IsRun(states, steps, n) && k < |states|
    requires states[k].prepared == [] && states[k].order == [] && FailedCount(states[k].left) == 0
    ensures PacketFrames(states[k].drained) == states[k].accepted
  {
    ReachableInv(states, steps, n, k);
    var s := states[k];
    AllSubmitted(s.left);
    assert FramesOf(s.slots, s.prepared) == [] && FramesOf(s.slots, Live(s)) == [];
    assert Locked(s) == s.drained;
  }

  lemma LiveSurfaceIsLeftAlone(s: Pipe, step: Step, i: nat)
    requires Owned(s) && Mapped(s) && Enabled(s, step) && i < |s.slots| && s.slots[i].mapped.Some?
    ensures Stepped(s, step).slots[i].surface.texture == s.slots[i].surface.texture
  {
    assert MappedAt(s.slots[i], i in Live(s)) && i in s.order;
    assert Uses(s, i);
  }

  /** While NVENC may read a surface, no step changes its slot's texture. */
  lemma MappedSurfacesAreLeftAlone(states: seq<Pipe>, steps: seq<Step>, n: nat, k: nat, i: nat)
    requires IsRun(states, steps, n) && k < |steps| && i < |states[k].slots|
    requires states[k].slots[i].mapped.Some?
    ensures states[k + 1].slots[i].surface.texture == states[k].slots[i].surface.texture
  {
    ReachableInv(states, steps, n, k);
    LiveSurfaceIsLeftAlone(states[k], steps[k], i);
  }

  // ------------------------------------------------------------------ free slots

  predicate Member(q: seq<nat>, i: nat) {
    i in q
  }

  lemma {:induction false} CoveringNeeds(q: seq<nat>, n: nat)
    requires forall i: nat | i < n :: Member(q, i)
    ensures |q| >= n
  {
    if n > 0 {
      assert Member(q, n - 1);
      var at :| 0 <= at < |q| && q[at] == n - 1;
      var rest := q[..at] + q[at + 1..];
      forall i: nat | i < n - 1
        ensures Member(rest, i)
      {
        assert Member(q, i);
        var k :| 0 <= k < |q| && q[k] == i;
        assert rest[if k < at then k else k - 1] == i;
      }
      CoveringNeeds(rest, n - 1);
    }
  }

  /** With fewer prepared and in-flight frames than slots, a reservation always succeeds. */
  lemma SlotIsFree(s: Pipe)
    requires Owned(s) && s.reserved == None && |s.prepared| + |s.order| < |s.slots|
    ensures exists i :: 0 <= i < |s.slots| && !s.slots[i].inFlight
  {
    if forall i :: 0 <= i < |s.slots| ==> s.slots[i].inFlight {
      forall i: nat | i < |s.slots|
        ensures Member(s.prepared + s.order, i)
      {
        assert Uses(s, i);
      }
      CoveringNeeds(s.prepared + s.order, |s.slots|);
    }
  }
}
