/** The encode session in buffered synchronous mode: each call of the encode thread is a
    sequence of the pipeline's steps, and outputs are retired once enough are in flight. */
module NvencSession {
  import opened Basics
  import opened NvencSurfaces
  import opened NvencPipeline

  const OUTPUT_SLOTS: nat := 32
  const IDLE_RELEASE: int := 30_000_000

  /** How many outputs may stay submitted before the oldest is retired. */
  function BoundedDelay(slotCount: nat, depth: nat, preferred: nat, reservedSlots: nat): nat {
    if slotCount == 0 then 0
    else
      var unavailable := Min(depth, slotCount - 1) + reservedSlots;
      if unavailable >= slotCount then 1 else Max(1, Min(preferred, slotCount - unavailable))
  }

  predicate ShouldDrain(inFlight: int, delay: nat) {
    inFlight > 0 && (delay == 0 || inFlight >= delay)
  }

  /** The slots kept back are enough: a full pipeline still leaves one free. */
  lemma DelayLeavesASlot(depth: nat, preferred: nat)
    requires 1 <= depth <= OUTPUT_SLOTS / 2
    ensures var delay := BoundedDelay(OUTPUT_SLOTS, depth, preferred, 2);
            1 <= delay && (depth - 1) + (delay - 1) < OUTPUT_SLOTS
  {
  }

  predicate HoldsFrame(slot: OutputSlot, frame: Source) {
    !slot.inFlight && frame.sequence != 0 && Identifies(slot.surface, frame)
  }

  /** `i` is the slot to reserve: the first free one that already shows the frame, or the
      first free one when none does. */
  ghost predicate IsChoice(slots: seq<OutputSlot>, frame: Source, i: nat) {
    && i < |slots| && !slots[i].inFlight
    && if exists j :: 0 <= j < |slots| && HoldsFrame(slots[j], frame)
       then HoldsFrame(slots[i], frame) && forall j :: 0 <= j < i ==> !HoldsFrame(slots[j], frame)
       else forall j :: 0 <= j < i ==> slots[j].inFlight
  }

  lemma FrontCanLeave(s: Pipe)
    requires Inv(s) && s.prepared != []
    ensures CanLeave(s) && !InputInFlight(s, s.slots[s.prepared[0]].surface.texture.value.id)
  {
    assert LoadedAt(s.slots, s.prepared[0]);
    PreparedInputIsNotInFlight(s);
  }

  lemma OldestCanBeLocked(s: Pipe)
    requires Inv(s) && s.draining == None && s.order != []
    ensures Enabled(s, LockOldest) && Enabled(Stepped(s, LockOldest), RetireOldest)
  {
    assert LoadedAt(s.slots, s.order[0]);
  }

  ghost predicate Good(s: Pipe, reference: Reference) {
    Inv(s) && InOrder(s) && SlotsCoherent(s.slots, reference)
  }

  lemma StepKeepsCoherent(s: Pipe, step: Step, reference: Reference)
    requires Enabled(s, step) && SlotsCoherent(s.slots, reference)
    requires step.Fill? ==> SurfaceCoherent(step.after, reference)
    ensures SlotsCoherent(Stepped(s, step).slots, reference)
  {
  }

  lemma StepKeepsGood(s: Pipe, step: Step, reference: Reference)
    requires Good(s, reference) && Enabled(s, step)
    requires step.Fill? ==> SurfaceCoherent(step.after, reference)
    ensures Good(Stepped(s, step), reference)
  {
    StepKeepsInv(s, step);
    StepKeepsInOrder(s, step);
    StepKeepsCoherent(s, step, reference);
  }

  /** Only slots, the reservation and the texture counter differ. */
  ghost predicate SameQueues(s: Pipe, t: Pipe) {
    && t == s.(slots := t.slots, reserved := t.reserved, nextTexture := t.nextTexture)
    && |t.slots| == |s.slots|
  }

  /** The frame as its slot shows it. A numbered frame shows its own image; an unnumbered one
      may show what the canonical texture had cached under the same identity. */
  predicate Serves(frame: Source, cached: Content, shown: Source) {
    && shown == frame.(image := shown.image)
    && (shown == frame || (frame.sequence == 0 && shown.image == cached))
  }

  predicate SlotsCoherent(slots: seq<OutputSlot>, reference: Reference) {
    forall i :: 0 <= i < |slots| ==> SurfaceCoherent(slots[i].surface, reference)
  }

  /** The slot holds something to release and was last reserved three seconds ago or more. */
  predicate HasIdleSurface(slots: seq<OutputSlot>, i: nat, now: int, warm: nat)
    requires i < |slots|
  {
    && !slots[i].inFlight && (slots[i].surface.texture.Some? || (i >= warm && slots[i].buffer))
    && now - slots[i].lastReserved >= 30_000_000
  }

  class NvencSession {
    const cache: SurfaceCache
    const depth: nat
    const delay: nat
    const warm: nat
    ghost const reference: Reference
    var slots: seq<OutputSlot>
    var prepared: seq<nat>
    var order: seq<nat>
    var count: int
    var surfaceDrops: nat
    ghost var reserved: Option<nat>
    ghost var draining: Option<Packet>
    ghost var accepted: seq<Source>
    ghost var left: seq<Left>
    ghost var drained: seq<Packet>

    ghost function State(): Pipe
      reads this, cache
    {
      Pipe(slots, reserved, prepared, order, count, draining, cache.nextTexture, surfaceDrops, accepted, left, drained)
    }

    /** Between calls: the pipeline's invariant, coherent caches, and room for one more frame. */
    ghost predicate Valid()
      reads this, cache
    {
      && Good(State(), reference) && cache.Coherent(reference)
      && reserved == None && draining == None && |slots| == OUTPUT_SLOTS
      && 1 <= depth <= OUTPUT_SLOTS / 2 && 1 <= delay && depth + delay <= OUTPUT_SLOTS + 1
      && |prepared| < depth && |order| < delay
    }

    constructor (cache: SurfaceCache, depth: nat, preferredDelay: nat, warm: nat, ghost reference: Reference)
      requires 1 <= depth <= OUTPUT_SLOTS / 2 && cache.Coherent(reference)
      ensures Valid() && this.cache == cache && this.reference == reference && this.depth == depth
      // Of 32 slots the prepared frames and two more are kept back from the preferred delay.
      ensures delay == Max(1, Min(preferredDelay, 30 - depth)) && prepared == [] && order == []
      ensures accepted == [] && drained == [] && surfaceDrops == 0
    {
      this.cache, this.depth, this.warm, this.reference := cache, depth, warm, reference;
      delay := BoundedDelay(OUTPUT_SLOTS, depth, preferredDelay, 2);
      slots := seq(OUTPUT_SLOTS, (i: nat) => EMPTY_SLOT.(buffer := i < warm));
      prepared, order, count, surfaceDrops := [], [], 0, 0;
      reserved, draining, accepted, left, drained := None, None, [], [], [];
      DelayLeavesASlot(depth, preferredDelay);
    }

    method FreeOutputSlot(frame: Source, now: int) returns (choice: Option<nat>)
      requires reserved == None
      modifies this`slots, this`reserved
      ensures choice == None <==> forall i :: 0 <= i < |old(slots)| ==> old(slots)[i].inFlight
      ensures choice == None ==> State() == old(State())
      ensures choice.Some? ==>
                && IsChoice(old(slots), frame, choice.value)
                && State() == Stepped(old(State()), Reserve(choice.value, now))
    {
      choice := None;
      if frame.sequence != 0 {
        for i := 0 to |slots|
          invariant choice == None
          invariant forall j :: 0 <= j < i ==> !HoldsFrame(slots[j], frame)
        {
          if HoldsFrame(slots[i], frame) {
            choice := Some(i);
            break;
          }
        }
      }
      if choice == None {
        for i := 0 to |slots|
          invariant choice == None
          invariant forall j :: 0 <= j < i ==> slots[j].inFlight
        {
          if !slots[i].inFlight {
            choice := Some(i);
            break;
          }
        }
      }
      if choice.Some? {
        var i := choice.value;
        slots := slots[i := slots[i].(inFlight := true, lastReserved := now)];
        reserved := choice;
      }
    }

    // Frees the surface, and past the warm set the buffer, of one long idle slot.
    method ReleaseIdleOutputSlot(now: int) returns (ghost step: Option<Step>)
      modifies this`slots
      ensures step == None ==> State() == old(State())
      ensures step == None ==> forall j :: 0 <= j < |slots| ==> !HasIdleSurface(slots, j, now, warm)
      ensures |slots| == |old(slots)|
      ensures step.Some? ==>
                && step.value.ReleaseSurface? && Enabled(old(State()), step.value)
                && State() == Stepped(old(State()), step.value)
                && HasIdleSurface(old(slots), step.value.slot, now, warm)
                && (forall j :: step.value.slot < j < |old(slots)| ==> !HasIdleSurface(old(slots), j, now, warm))
                && step.value.keepBuffer == (step.value.slot < warm)
    {
      var index := |slots|;
      while index > 0
        invariant 0 <= index <= |slots|
        invariant forall j :: index <= j < |slots| ==> !HasIdleSurface(slots, j, now, warm)
      {
        index := index - 1;
        var slot := slots[index];
        var isWarm := index < warm;
        if slot.inFlight || (slot.surface.texture == None && (isWarm || !slot.buffer)) { continue; }
        if now - slot.lastReserved < IDLE_RELEASE { continue; }
        slots := slots[index := Freed(slot).(buffer := slot.buffer && isWarm, surface := NO_SURFACE)];
        return Some(ReleaseSurface(index, isWarm));
      }
      return None;
    }

    method Release(i: nat)
      requires reserved == Some(i) && i < |slots|
      modifies this`slots, this`reserved
      ensures State() == Stepped(old(State()), Abandon)
    {
      slots := slots[i := Freed(slots[i])];
      reserved := None;
    }

    method InputResourceInFlight(texture: nat) returns (r: bool)
      ensures r <==> InputInFlight(State(), texture)
    {
      for j := 0 to |slots|
        invariant forall k :: 0 <= k < j ==> !(slots[k].inFlight && slots[k].mapped == Some(texture))
      {
        if slots[j].inFlight && slots[j].mapped == Some(texture) { return true; }
      }
      return false;
    }

    // Submits the front of the prepared queue; a driver failure frees its slot.
    method SubmitFront() returns (ok: bool)
      requires CanLeave(State())
      modifies this`slots, this`prepared, this`order, this`count, this`left
      ensures State() == Stepped(old(State()), if ok then Step.SubmitFront else FailFront)
    {
      var i := prepared[0];
      var texture := slots[i].surface.texture.value.id;
      var inFlight := InputResourceInFlight(texture);
      prepared := prepared[1..];
      if inFlight {
        left := left + [InputDropped(slots[i].frame.value)];
        slots := slots[i := Freed(slots[i])];
        return true;
      }
      ok := cache.DriverCall();
      if !ok {
        left := left + [Failed(slots[i].frame.value)];
        slots := slots[i := Freed(slots[i])];
        return;
      }
      left := left + [Submitted(slots[i].frame.value)];
      slots := slots[i := slots[i].(mapped := Some(texture))];
      order := order + [i];
      count := count + 1;
    }

    // Locks the oldest output, then retires its slot. A failed lock changes nothing.
    method DrainOldestSyncOutput() returns (ok: bool, packet: Option<Packet>)
      requires order != [] ==> Enabled(State(), LockOldest)
      modifies this`slots, this`order, this`count, this`drained
      ensures !ok || old(order) == [] ==> State() == old(State()) && packet == None
      ensures ok && old(order) != [] ==>
                && State() == Stepped(Stepped(old(State()), LockOldest), RetireOldest)
                && packet.Some? && drained == old(drained) + [packet.value]
    {
      packet := None;
      if order == [] { return true, None; }
      ok := cache.DriverCall();
      if !ok { return; }
      var i := order[0];
      packet := Some(Packet(slots[i].frame.value, slots[i].surface.texture.value.content));
      slots := slots[i := slots[i].(mapped := None, frame := None)];
      order := order[1..];
      slots := slots[i := slots[i].(inFlight := false)];
      count := count - 1;
      drained := drained + [packet.value];
    }

    // Submits one prepared frame.
    method SubmitOne() returns (ok: bool)
      requires Good(State(), reference) && prepared != []
      modifies this`slots, this`prepared, this`order, this`count, this`left
      ensures Good(State(), reference) && |slots| == |old(slots)|
      ensures prepared == old(prepared)[1..]
      ensures |order| == |old(order)| + if ok then 1 else 0
    {
      FrontCanLeave(State());
      StepKeepsGood(State(), Step.SubmitFront, reference);
      StepKeepsGood(State(), FailFront, reference);
      ok := SubmitFront();
    }

    // Submits one prepared frame and, once enough are in flight, retires the oldest output.
    method SubmitPrepared() returns (ok: bool, packets: seq<Packet>)
      requires Good(State(), reference) && draining == None
      modifies this`slots, this`prepared, this`order, this`count, this`left, this`drained
      ensures Good(State(), reference) && drained == old(drained) + packets && |slots| == |old(slots)|
      ensures prepared == if old(prepared) == [] then [] else old(prepared)[1..]
      // An output comes out once enough are in flight, and then one for each submission.
      ensures ok && old(prepared) != [] ==>
                && |packets| == (if |old(order)| + 1 >= delay then 1 else 0)
                && |order| == |old(order)| + 1 - |packets|
      ensures ok && old(prepared) == [] ==> packets == [] && order == old(order)
    {
      packets := [];
      if prepared == [] { return true, []; }
      ok := SubmitOne();
      if ok && ShouldDrain(count, delay) {
        ok, packets := DrainOne();
      }
    }

    // Reserves a slot. The bounded pipeline always leaves one free.
    method ReserveSlot(frame: Source, now: int) returns (i: nat)
      requires Valid()
      modifies this`slots, this`reserved, this`surfaceDrops
      ensures Good(State(), reference) && IsChoice(old(slots), frame, i)
      ensures State() == Stepped(old(State()), Reserve(i, now))
    {
      ghost var s := State();
      SlotIsFree(s);
      var choice := FreeOutputSlot(frame, now);
      i := choice.value;
      StepKeepsGood(s, Reserve(i, now), reference);
    }

    // Gives the reserved slot its buffer; a failure drops the reservation.
    method EnsureBuffer(i: nat) returns (ok: bool)
      requires Good(State(), reference) && reserved == Some(i) && i < |slots|
      modifies this`slots, this`reserved
      ensures Good(State(), reference)
      ensures State() == Stepped(old(State()), if ok then CreateBuffer else Abandon)
    {
      ok := slots[i].buffer;
      if !ok { ok := cache.DriverCall(); }
      StepKeepsGood(State(), if ok then CreateBuffer else Abandon, reference);
      if ok {
        slots := slots[i := slots[i].(buffer := true)];
      } else {
        Release(i);
      }
    }

    // Frees an idle slot's surface, never the reserved one's.
    method FreeIdleSurface(i: nat, now: int)
      requires Good(State(), reference) && reserved == Some(i) && i < |slots|
      modifies this`slots
      ensures Good(State(), reference) && SameQueues(old(State()), State())
      ensures slots[i] == old(slots)[i]
    {
      ghost var s := State();
      assert slots[i].inFlight by {
        assert Uses(s, i);
      }
      ghost var step := ReleaseIdleOutputSlot(now);
      if step.Some? { StepKeepsGood(s, step.value, reference); }
    }

    // Shows the frame on the reserved slot's surface.
    method FillSlot(i: nat, frame: Source) returns (ok: bool, shown: Source)
      requires Good(State(), reference) && reserved == Some(i) && i < |slots|
      requires cache.Coherent(reference) && Numbered(frame, reference)
      modifies this`slots, cache
      ensures Inv(State()) && InOrder(State()) && SameQueues(old(State()), State())
      ensures reserved == Some(i) && slots[i].buffer == old(slots)[i].buffer
      ensures ok ==> SlotsCoherent(slots, reference) && cache.Coherent(reference) && Shows(slots[i].surface.texture, shown)
      ensures ok ==> Serves(frame, old(cache.Cached(frame)), shown)
    {
      ghost var s := State();
      var path, after := cache.PrepareRegistered(frame, slots[i].surface, reference);
      StepKeepsInv(s, Fill(after, cache.nextTexture));
      StepKeepsInOrder(s, Fill(after, cache.nextTexture));
      slots := slots[i := slots[i].(surface := after)];
      ok := path != NoPath;
      shown := if ok then frame.(image := after.texture.value.content) else frame;
    }

    // Shows the frame on the reserved slot; a failure drops the reservation.
    method ShowOnSlot(i: nat, frame: Source, now: int) returns (ok: bool, shown: Source)
      requires Good(State(), reference) && reserved == Some(i) && i < |slots| && slots[i].buffer
      requires cache.Coherent(reference) && Numbered(frame, reference)
      modifies this`slots, this`reserved, cache
      ensures Inv(State()) && InOrder(State()) && SameQueues(old(State()), State())
      ensures ok ==> reserved == Some(i) && Enabled(State(), Accept(shown))
      ensures ok ==> Serves(frame, old(cache.Cached(frame)), shown)
      ensures ok ==> SlotsCoherent(slots, reference) && cache.Coherent(reference)
      ensures !ok ==> reserved == None
    {
      FreeIdleSurface(i, now);
      ok, shown := FillSlot(i, frame);
      if !ok {
        StepKeepsInv(State(), Abandon);
        StepKeepsInOrder(State(), Abandon);
        Release(i);
      }
    }

    // Reserves a slot and shows the frame on it.
    method PrepareInput(frame: Source, now: int) returns (ok: bool, i: nat, shown: Source)
      requires Valid() && Numbered(frame, reference)
      modifies this`slots, this`reserved, this`surfaceDrops, cache
      ensures Inv(State()) && InOrder(State()) && SameQueues(old(State()), State())
      ensures ok ==> reserved == Some(i) && Enabled(State(), Accept(shown))
      ensures ok ==> Serves(frame, old(cache.Cached(frame)), shown)
      ensures ok ==> SlotsCoherent(slots, reference) && cache.Coherent(reference)
      ensures !ok ==> reserved == None
    {
      i := ReserveSlot(frame, now);
      ok := EnsureBuffer(i);
      shown := frame;
      if ok { ok, shown := ShowOnSlot(i, frame, now); }
    }

    method AcceptSlot(i: nat, frame: Source)
      requires Good(State(), reference) && reserved == Some(i) && Enabled(State(), Accept(frame))
      modifies this`slots, this`reserved, this`prepared, this`accepted
      ensures Good(State(), reference) && State() == Stepped(old(State()), Accept(frame))
    {
      StepKeepsGood(State(), Accept(frame), reference);
      slots := slots[i := slots[i].(frame := Some(frame))];
      reserved, prepared, accepted := None, prepared + [i], accepted + [frame];
    }

    // One encoder tick. A failed call leaves the session to be discarded.
    method Encode(frame: Source, now: int) returns (ok: bool, packets: seq<Packet>, ghost shown: Source)
      requires Valid() && Numbered(frame, reference)
      modifies this`slots, this`prepared, this`order, this`count, this`surfaceDrops,
               this`reserved, this`accepted, this`left, this`drained, cache
      ensures ok ==> Valid()
      ensures Inv(State()) && InOrder(State())
      ensures surfaceDrops == old(surfaceDrops)
      ensures ok ==> accepted == old(accepted) + [shown] && Serves(frame, old(cache.Cached(frame)), shown)
      ensures drained == old(drained) + packets
      // Nothing comes out until the queue of prepared frames and the delay are filled; from
      // then on each accepted frame brings out one output.
      ensures ok ==>
                && |packets| == (if |old(prepared)| + 1 >= depth && |old(order)| + 1 >= delay then 1 else 0)
                && |prepared| == Min(|old(prepared)| + 1, depth - 1)
                && |order| == if |old(prepared)| + 1 < depth then |old(order)| else Min(|old(order)| + 1, delay - 1)
    {
      packets, shown := [], frame;
      var i: nat;
      var accepts: Source;
      ok, i, accepts := PrepareInput(frame, now);
      shown := accepts;
      if !ok { return; }
      AcceptSlot(i, accepts);
      if |prepared| < depth { return true, [], shown; }
      ok, packets := SubmitPrepared();
    }

    // Retires the oldest output; there must be one.
    method DrainOne() returns (ok: bool, packets: seq<Packet>)
      requires Good(State(), reference) && draining == None && order != []
      modifies this`slots, this`order, this`count, this`drained
      ensures Good(State(), reference) && drained == old(drained) + packets && |slots| == |old(slots)|
      ensures ok ==> |order| == |old(order)| - 1 && |packets| == 1
    {
      ghost var s := State();
      OldestCanBeLocked(s);
      StepKeepsGood(s, LockOldest, reference);
      StepKeepsGood(Stepped(s, LockOldest), RetireOldest, reference);
      var packet: Option<Packet>;
      ok, packet := DrainOldestSyncOutput();
      packets := if ok then [packet.value] else [];
    }

    method SubmitAll() returns (ok: bool, packets: seq<Packet>)
      requires Good(State(), reference) && draining == None
      modifies this`slots, this`prepared, this`order, this`count, this`left, this`drained
      ensures Good(State(), reference) && drained == old(drained) + packets
      ensures ok ==> prepared == [] && |packets| + |order| == |old(prepared)| + |old(order)|
    {
      ok, packets := true, [];
      while prepared != []
        invariant Good(State(), reference) && drained == old(drained) + packets
        invariant |packets| + |order| + |prepared| == |old(prepared)| + |old(order)|
        decreases |prepared|
      {
        var more: seq<Packet>;
        ok, more := SubmitPrepared();
        Regroup(old(drained), packets, more);
        packets := packets + more;
        if !ok { return; }
      }
    }

    // Stopping: submits everything prepared and retires everything in flight.
    method DrainAll() returns (ok: bool, packets: seq<Packet>)
      requires Good(State(), reference) && reserved == None && draining == None
      modifies this`slots, this`prepared, this`order, this`count, this`left, this`drained
      ensures Good(State(), reference) && drained == old(drained) + packets
      ensures ok ==> prepared == [] && order == [] && |packets| == |old(prepared)| + |old(order)|
    {
      ok, packets := SubmitAll();
      if !ok { return; }
      while order != []
        invariant Good(State(), reference) && drained == old(drained) + packets && prepared == []
        invariant |packets| + |order| == |old(prepared)| + |old(order)|
        decreases |order|
      {
        var more: seq<Packet>;
        ok, more := DrainOne();
        Regroup(old(drained), packets, more);
        packets := packets + more;
        if !ok { return; }
      }
    }
  }
}
