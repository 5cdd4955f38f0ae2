/** The objects behind guarded direct reads: the read guard of a slot, the reader, the
    snapshot copy and the capture texture pool, each tied to the steps of `DirectRead`. */
module CaptureObjects {
  import opened Basics
  import opened DirectRead

  datatype PendingRead = PendingRead(fence: nat, value: nat)

  function Retained(guard: Guard, fence: nat, value: nat): Guard {
    guard[fence := if fence in guard then Max(guard[fence], value) else value]
  }

  predicate Finished(read: PendingRead, completed: nat -> nat) {
    completed(read.fence) >= read.value
  }

  /** `pending` holds one entry a fence, and among them every armed read not yet finished. */
  ghost predicate Tracks(pending: seq<PendingRead>, guard: Guard, completed: nat -> nat) {
    && DistinctFences(pending)
    && (forall read <- pending :: read.fence in guard && read.value <= guard[read.fence])
    && (forall f <- guard :: completed(f) >= guard[f] || PendingRead(f, guard[f]) in pending)
  }

  lemma RetainKeepsTracking(
    pending: seq<PendingRead>, guard: Guard, completed: nat -> nat, at: nat, fence: nat, value: nat,
    after: seq<PendingRead>)
    requires Tracks(pending, guard, completed) && at <= |pending|
    requires forall i :: 0 <= i < at ==> pending[i].fence != fence
    requires at < |pending| ==> pending[at].fence == fence
    requires after == if at < |pending| then pending[at := PendingRead(fence, Max(pending[at].value, value))]
                      else pending + [PendingRead(fence, value)]
    ensures Tracks(after, Retained(guard, fence, value), completed)
  {
    assert after[at].fence == fence;
    assert forall i :: 0 <= i < |pending| && i != at ==> after[i] == pending[i] && pending[i].fence != fence;
    var next := Retained(guard, fence, value);
    forall f <- next | completed(f) < next[f]
      ensures PendingRead(f, next[f]) in after
    {
      if f in guard && completed(f) < guard[f] {
        var i :| 0 <= i < |pending| && pending[i] == PendingRead(f, guard[f]);
        assert after[i].fence == f;
      }
    }
  }

  /** The reads that have not finished. */
  function Unfinished(pending: seq<PendingRead>, completed: nat -> nat): seq<PendingRead> {
    if pending == [] then []
    else
      var n := |pending| - 1;
      Unfinished(pending[..n], completed) + if Finished(pending[n], completed) then [] else [pending[n]]
  }

  lemma {:induction false} UnfinishedAreListed(pending: seq<PendingRead>, completed: nat -> nat)
    ensures forall read :: read in Unfinished(pending, completed) <==> read in pending && !Finished(read, completed)
  {
    if pending != [] {
      var n := |pending| - 1;
      UnfinishedAreListed(pending[..n], completed);
      assert pending == pending[..n] + [pending[n]];
    }
  }

  ghost predicate DistinctFences(pending: seq<PendingRead>) {
    forall i, j :: 0 <= i < j < |pending| ==> pending[i].fence != pending[j].fence
  }

  lemma {:induction false} UnfinishedStayDistinct(pending: seq<PendingRead>, completed: nat -> nat)
    requires DistinctFences(pending)
    ensures DistinctFences(Unfinished(pending, completed))
  {
    if pending != [] {
      var n := |pending| - 1;
      UnfinishedStayDistinct(pending[..n], completed);
      UnfinishedAreListed(pending[..n], completed);
      forall read | read in Unfinished(pending[..n], completed)
        ensures read.fence != pending[n].fence
      {
        var i :| 0 <= i < n && pending[..n][i] == read;
      }
    }
  }

  lemma CollectKeepsTracking(pending: seq<PendingRead>, guard: Guard, completed: nat -> nat)
    requires Tracks(pending, guard, completed)
    ensures Tracks(Unfinished(pending, completed), guard, completed)
  {
    UnfinishedAreListed(pending, completed);
    UnfinishedStayDistinct(pending, completed);
  }

  /** `completed` gives each fence's value at the time of a call. */
  class GpuTextureReadState {
    var pending: seq<PendingRead>
    /** Everything ever armed; `pending` forgets what has finished. */
    ghost var guard: Guard

    ghost predicate Valid(completed: nat -> nat)
      reads this
    {
      Tracks(pending, guard, completed)
    }

    constructor (ghost completed: nat -> nat)
      ensures Valid(completed) && guard == map[]
    {
      pending, guard := [], map[];
    }

    // Forgets the finished reads.
    method Collect(completed: nat -> nat)
      requires Valid(completed)
      modifies this`pending
      ensures Valid(completed) && pending == Unfinished(old(pending), completed)
    {
      var kept: seq<PendingRead> := [];
      for n := 0 to |pending|
        invariant kept == Unfinished(pending[..n], completed)
      {
        assert pending[..n + 1][..n] == pending[..n];
        if !Finished(pending[n], completed) {
          kept := kept + [pending[n]];
        }
      }
      assert pending[..|pending|] == pending;
      CollectKeepsTracking(pending, guard, completed);
      pending := kept;
    }

    method RetainUntil(fence: nat, value: nat, completed: nat -> nat)
      requires Valid(completed)
      modifies this
      ensures Valid(completed) && guard == Retained(old(guard), fence, value)
    {
      Collect(completed);
      ghost var was := pending;
      var at := 0;
      while at < |pending| && pending[at].fence != fence
        invariant at <= |pending|
        invariant forall i :: 0 <= i < at ==> pending[i].fence != fence
      {
        at := at + 1;
      }
      if at < |pending| {
        pending := pending[at := PendingRead(fence, Max(pending[at].value, value))];
      } else {
        pending := pending + [PendingRead(fence, value)];
      }
      RetainKeepsTracking(was, guard, completed, at, fence, value, pending);
      guard := Retained(guard, fence, value);
    }

    method Reusable(completed: nat -> nat) returns (r: bool)
      requires Valid(completed)
      modifies this`pending
      ensures Valid(completed)
      ensures r <==> forall f <- guard :: completed(f) >= guard[f]
      ensures forall s: System, id: nat |
                && id in s.slots && s.slots[id].guard == guard
                && (forall f <- guard :: f < |s.readers| && completed(f) == s.readers[f].consumed) ::
                r <==> DirectRead.Reusable(s, id)
    {
      UnfinishedAreListed(pending, completed);
      Collect(completed);
      r := pending == [];
      if pending != [] {
        assert pending[0] in pending && pending[0].fence in guard;
      }
    }
  }

  class CaptureQueue {
    var issued: seq<Command>

    constructor ()
      ensures issued == []
    {
      issued := [];
    }
  }

  // ------------------------------------------------------------------ the reader

  /** The steps one `begin` takes, by which of its driver calls succeed. */
  function Begun(s: System, i: nat, slot: nat, signalOk: bool, awaitOk: bool): System
    requires Enabled(s, Arm(i, slot)) && s.executed <= |s.issued|
  {
    var armed := Stepped(s, Arm(i, slot));
    var signalled := Stepped(armed, QueueSignal(i, signalOk));
    if signalOk then Stepped(signalled, QueueAwait(i, awaitOk)) else signalled
  }

  /** What the objects around one read hold: the reader's counter and queue, the capture
      queue, and the slot's guard. */
  datatype ReadView = ReadView(sequence: nat, queue: seq<ReadCommand>, issued: seq<Command>, guard: Guard)

  predicate Shows(v: ReadView, s: System, i: nat, slot: nat) {
    && i < |s.readers| && slot in s.slots && s.executed <= |s.issued|
    && v == ReadView(s.readers[i].sequence, s.readers[i].queue, s.issued, s.slots[slot].guard)
  }

  /** What `Begin` leaves of a view, by which of its driver calls succeed. */
  function AfterBegin(v: ReadView, i: nat, signalOk: bool, awaitOk: bool): ReadView {
    var sequence := v.sequence + 1;
    ReadView(sequence,
             if signalOk && awaitOk then v.queue + [AwaitReady(sequence)] else v.queue,
             if signalOk then v.issued + [SignalReady(i, sequence)] else v.issued,
             v.guard[i := sequence])
  }

  /** What a successful snapshot leaves: one read of the slot, already retired. */
  function AfterSnapshot(v: ReadView, i: nat, slot: nat): ReadView {
    var begun := AfterBegin(v, i, true, true);
    begun.(queue := begun.queue + [Read(slot, LastWrite(v.issued, slot), begun.sequence),
                                   SignalConsumed(begun.sequence)])
  }

  lemma BeginIsArmSignalAwait(s: System, i: nat, slot: nat, v: ReadView, signalOk: bool, awaitOk: bool)
    requires Shows(v, s, i, slot) && Enabled(s, Arm(i, slot))
    ensures Shows(AfterBegin(v, i, signalOk, awaitOk), Begun(s, i, slot, signalOk, awaitOk), i, slot)
  {
  }

  /** A snapshot is the read protocol run through once, on the image the slot holds. */
  lemma SnapshotIsOneRead(s: System, i: nat, slot: nat, v: ReadView)
    requires Shows(v, s, i, slot) && Enabled(s, Arm(i, slot))
    ensures var begun := Begun(s, i, slot, true, true);
            && Enabled(begun, QueueRead(i))
            && Shows(AfterSnapshot(v, i, slot), Stepped(Stepped(begun, QueueRead(i)), Step.End(i, true)), i, slot)
  {
    BeginIsArmSignalAwait(s, i, slot, v, true, true);
    var begun := Begun(s, i, slot, true, true);
    var read := Stepped(begun, QueueRead(i));
    var r := begun.readers[i];
    assert r.phase == Awaited(slot, LastWrite(v.issued, slot));
    assert read.readers[i].queue + [SignalConsumed(r.sequence)]
        == r.queue + [Read(slot, r.phase.image, r.sequence), SignalConsumed(r.sequence)];
  }

  class SharedTextureReader {
    const id: nat
    const capture: CaptureQueue
    var sequence: nat
    var queue: seq<ReadCommand>

    constructor (id: nat, capture: CaptureQueue)
      ensures this.id == id && this.capture == capture && sequence == 0 && queue == []
    {
      this.id, this.capture := id, capture;
      sequence, queue := 0, [];
    }

    ghost function View(lifetime: GpuTextureReadState): ReadView
      reads this, capture, lifetime
    {
      ReadView(sequence, queue, capture.issued, lifetime.guard)
    }

    // Arms the guard before any command is queued; a failure leaves it armed.
    method Begin(lifetime: GpuTextureReadState, completed: nat -> nat, signalOk: bool, awaitOk: bool)
      returns (ok: bool)
      requires lifetime.Valid(completed) && (id in lifetime.guard ==> lifetime.guard[id] <= sequence)
      modifies this`sequence, this`queue, capture, lifetime
      ensures ok == (signalOk && awaitOk) && lifetime.Valid(completed)
      ensures View(lifetime) == AfterBegin(old(View(lifetime)), id, signalOk, awaitOk)
    {
      sequence := sequence + 1;
      lifetime.RetainUntil(id, sequence, completed);
      ok := signalOk;
      if ok {
        capture.issued := capture.issued + [SignalReady(id, sequence)];
        ok := awaitOk;
      }
      if ok {
        queue := queue + [AwaitReady(sequence)];
      }
    }

    // Whether it succeeds or not, exactly the step that ends the read `Begin` opened.
    method End(signalOk: bool) returns (ok: bool)
      modifies this`queue
      ensures ok == (sequence > 0 && signalOk)
      ensures forall s: System | && s.executed <= |s.issued| && Enabled(s, Step.End(id, ok))
                                 && s.readers[id].sequence == sequence && s.readers[id].queue == old(queue) ::
                Stepped(s, Step.End(id, ok)) == WithReader(s, id, s.readers[id].(phase := Resting, queue := queue))
      ensures queue == old(queue) + if ok then [SignalConsumed(sequence)] else []
    {
      ok := sequence > 0 && signalOk;
      if ok {
        queue := queue + [SignalConsumed(sequence)];
      }
    }
  }

  class EncoderSourceSnapshot {
    var texture: Option<(nat, nat)>

    constructor ()
      ensures texture == None
    {
      texture := None;
    }

    /** Copies the capture texture in `slot` and ends its read at once. Allocation comes
        before arming, so a failed allocation arms and queues nothing. */
    method CopyAndRetire(
      reader: SharedTextureReader, lifetime: GpuTextureReadState, slot: nat, size: (nat, nat),
      completed: nat -> nat, allocateOk: bool, signalOk: bool, awaitOk: bool, endOk: bool)
      returns (copy: Option<(nat, nat)>)
      requires lifetime.Valid(completed)
      requires reader.id in lifetime.guard ==> lifetime.guard[reader.id] <= reader.sequence
      modifies this, reader`sequence, reader`queue, reader.capture, lifetime
      ensures lifetime.Valid(completed)
      ensures old(texture) != Some(size) && !allocateOk ==>
                copy == None && reader.View(lifetime) == old(reader.View(lifetime))
      ensures copy.Some? <==> (old(texture) == Some(size) || allocateOk) && signalOk && awaitOk && endOk
      ensures copy.Some? ==>
                && copy == texture == Some(size)
                && reader.View(lifetime) == AfterSnapshot(old(reader.View(lifetime)), reader.id, slot)
      ensures old(texture) == Some(size) || allocateOk ==> lifetime.guard[reader.id := reader.sequence] == lifetime.guard
    {
      if texture != Some(size) {
        if !allocateOk { return None; }
        texture := Some(size);
      }
      var image := LastWrite(reader.capture.issued, slot);
      var begun := reader.Begin(lifetime, completed, signalOk, awaitOk);
      if !begun { return None; }
      reader.queue := reader.queue + [Read(slot, image, reader.sequence)];
      var ended := reader.End(endOk);
      copy := if ended then texture else None;
    }
  }

  // -------------------------------------------------------------------- the pool

  datatype PoolSlot = PoolSlot(id: nat, leased: bool, lastLeased: int)

  datatype Pool = Pool(slots: seq<PoolSlot>, nextId: nat)

  const IDLE_RELEASE: int := 20_000_000

  predicate Free(slot: PoolSlot, reusable: nat -> bool) {
    !slot.leased && reusable(slot.id)
  }

  predicate Idle(slot: PoolSlot, now: int, reusable: nat -> bool) {
    Free(slot, reusable) && now - slot.lastLeased >= IDLE_RELEASE
  }

  /** What `acquire` hands out: a slot of the pool, nothing while the GPU still reads every
      unleased slot, or a new slot. */
  datatype Acquired = Taken(id: nat) | Dropped | Grown(id: nat) | Failed

  ghost predicate DistinctIds(slots: seq<PoolSlot>, nextId: nat) {
    && (forall i, j :: 0 <= i < j < |slots| ==> slots[i].id != slots[j].id)
    && (forall i :: 0 <= i < |slots| ==> slots[i].id < nextId)
  }

  /** The first free slot, or the number of slots. */
  function FirstFree(slots: seq<PoolSlot>, reusable: nat -> bool): (i: nat)
    ensures i <= |slots| && (i < |slots| ==> Free(slots[i], reusable))
    ensures forall j :: 0 <= j < i ==> !Free(slots[j], reusable)
  {
    if slots == [] || Free(slots[0], reusable) then 0
    else
      var i := 1 + FirstFree(slots[1..], reusable);
      assert forall j :: 1 <= j < i ==> slots[j] == slots[1..][j - 1];
      i
  }

  /** Surplus slots leave from the back while they are idle. */
  function Trimmed(slots: seq<PoolSlot>, warm: nat, now: int, reusable: nat -> bool): (r: seq<PoolSlot>)
    ensures r <= slots && |r| >= Min(warm, |slots|)
    ensures forall i :: |r| <= i < |slots| ==> Idle(slots[i], now, reusable)
    ensures |r| > warm ==> !Idle(r[|r| - 1], now, reusable)
  {
    if |slots| > warm && Idle(slots[|slots| - 1], now, reusable)
    then Trimmed(slots[..|slots| - 1], warm, now, reusable)
    else slots
  }

  function Acquiring(p: Pool, warm: nat, now: int, reusable: nat -> bool, createOk: bool): (Pool, Acquired) {
    var i := FirstFree(p.slots, reusable);
    if i < |p.slots| then
      var id := p.slots[i].id;
      (p.(slots := Trimmed(p.slots[i := PoolSlot(id, true, now)], warm, now, reusable)), Taken(id))
    else if exists j :: 0 <= j < |p.slots| && !p.slots[j].leased then (p, Dropped)
    else if createOk then (Pool(p.slots + [PoolSlot(p.nextId, true, now)], p.nextId + 1), Grown(p.nextId))
    else (p, Failed)
  }

  /** Slot `k` stays exactly when it is one of the warm ones, or it or a slot behind it is leased,
      still read by the GPU, or was leased within the last two seconds. */
  lemma {:induction false} WhichSlotsStay(slots: seq<PoolSlot>, warm: nat, now: int, reusable: nat -> bool, k: nat)
    requires k < |slots|
    ensures k < |Trimmed(slots, warm, now, reusable)|
            <==> k < warm || exists i :: && k <= i < |slots|
                                         && (slots[i].leased || !reusable(slots[i].id)
                                             || now - slots[i].lastLeased < 20_000_000)
  {
    var kept := Trimmed(slots, warm, now, reusable);
    if |kept| <= k {
      assert forall i :: k <= i < |slots| ==> Idle(slots[i], now, reusable);
    } else if k >= warm {
      assert !Idle(kept[|kept| - 1], now, reusable) && kept[|kept| - 1] == slots[|kept| - 1];
    }
  }

  /** The first free slot wins and surplus idle slots go with it; GPU pressure drops the frame
      instead of growing the pool; the pool grows only while every slot is leased. */
  lemma AcquireRules(p: Pool, warm: nat, now: int, reusable: nat -> bool, createOk: bool)
    requires DistinctIds(p.slots, p.nextId)
    ensures var (q, r) := Acquiring(p, warm, now, reusable, createOk);
            && DistinctIds(q.slots, q.nextId)
            && (r.Taken? <==> exists i :: 0 <= i < |p.slots| && Free(p.slots[i], reusable))
            && (r.Taken? ==>
                  exists i ::
                    && 0 <= i < |p.slots| && i < |q.slots| <= |p.slots|
                    && p.slots[i].id == r.id && Free(p.slots[i], reusable)
                    && (forall j :: 0 <= j < i ==> !Free(p.slots[j], reusable))
                    && q == p.(slots := p.slots[i := PoolSlot(r.id, true, now)][..|q.slots|])
                    && (forall j :: |q.slots| <= j < |p.slots| ==> Idle(p.slots[j], now, reusable)))
            && (r.Dropped? <==> !r.Taken? && exists i :: 0 <= i < |p.slots| && !p.slots[i].leased)
            && (r.Dropped? || r.Failed? ==> q == p)
            && (r.Grown? ==>
                  && createOk && r.id == p.nextId
                  && q == Pool(p.slots + [PoolSlot(r.id, true, now)], p.nextId + 1)
                  && forall i :: 0 <= i < |p.slots| ==> p.slots[i].leased)
            && (r.Failed? ==> !createOk)
  {
    var i := FirstFree(p.slots, reusable);
    if i < |p.slots| {
      TakenKeepsOthers(p, i, warm, now, reusable);
    }
  }

  lemma TakenKeepsOthers(p: Pool, i: nat, warm: nat, now: int, reusable: nat -> bool)
    requires DistinctIds(p.slots, p.nextId) && i < |p.slots|
    ensures var slots := Trimmed(p.slots[i := PoolSlot(p.slots[i].id, true, now)], warm, now, reusable);
            && DistinctIds(slots, p.nextId) && i < |slots| <= |p.slots|
            && slots == p.slots[i := PoolSlot(p.slots[i].id, true, now)][..|slots|]
            && forall j :: |slots| <= j < |p.slots| ==> Idle(p.slots[j], now, reusable)
  {
    var leased := p.slots[i := PoolSlot(p.slots[i].id, true, now)];
    var slots := Trimmed(leased, warm, now, reusable);
    assert leased[i].leased;
    assert forall j :: |slots| <= j < |p.slots| ==> leased[j] == p.slots[j];
  }

  class CaptureTexturePool {
    const warm: nat
    var slots: seq<PoolSlot>
    var nextId: nat
    var drops: nat
    var idleReleases: nat

    ghost function State(): Pool
      reads this
    {
      Pool(slots, nextId)
    }

    constructor (warm: nat)
      ensures this.warm == warm && drops == 0 && idleReleases == 0
      ensures State() == WarmPool(warm)
    {
      this.warm, nextId, drops, idleReleases := warm, warm, 0, 0;
      slots := WarmPool(warm).slots;
    }

    // Frees surplus slots from the back while they are idle.
    method ReleaseIdleSlots(now: int, reusable: nat -> bool)
      modifies this`slots, this`idleReleases
      ensures slots == Trimmed(old(slots), warm, now, reusable)
      ensures idleReleases == old(idleReleases) + |old(slots)| - |slots|
    {
      ghost var all := slots;
      while |slots| > warm && Idle(slots[|slots| - 1], now, reusable)
        invariant slots <= all && idleReleases == old(idleReleases) + |all| - |slots|
        invariant Trimmed(all, warm, now, reusable) == Trimmed(slots, warm, now, reusable)
      {
        slots := slots[..|slots| - 1];
        idleReleases := idleReleases + 1;
      }
    }

    // `reusable` answers whether every GPU read armed on a slot has finished.
    method Acquire(now: int, reusable: nat -> bool, createOk: bool) returns (r: Acquired)
      modifies this
      ensures (State(), r) == Acquiring(old(State()), warm, now, reusable, createOk)
      ensures drops == old(drops) + if r.Dropped? then 1 else 0
    {
      var gpuPending := false;
      ghost var first := FirstFree(slots, reusable);
      for i := 0 to |slots|
        invariant slots == old(slots) && drops == old(drops) && nextId == old(nextId)
        invariant i <= first
        invariant gpuPending <==> exists j :: 0 <= j < i && !slots[j].leased
      {
        if slots[i].leased { continue; }
        if !reusable(slots[i].id) {
          gpuPending := true;
          continue;
        }
        assert Free(slots[i], reusable) && i == first;
        r := Taken(slots[i].id);
        slots := slots[i := PoolSlot(slots[i].id, true, now)];
        ReleaseIdleSlots(now, reusable);
        return;
      }
      if gpuPending {
        drops := drops + 1;
        return Dropped;
      }
      if !createOk { return Failed; }
      r := Grown(nextId);
      slots := slots + [PoolSlot(nextId, true, now)];
      nextId := nextId + 1;
    }
  }

  // ------------------------------------------------------- the pool against the steps

  /** The pool and the step system hold the same slots under the same leases. */
  ghost predicate Mirrors(p: Pool, s: System) {
    && DistinctIds(p.slots, p.nextId) && p.nextId == s.nextId
    && (forall i :: 0 <= i < |p.slots| ==> HasSlot(s, p.slots[i]))
    && (forall id <- s.slots :: Listed(p.slots, id))
  }

  ghost predicate HasSlot(s: System, slot: PoolSlot) {
    slot.id in s.slots && s.slots[slot.id].leased == slot.leased
  }

  ghost predicate Listed(slots: seq<PoolSlot>, id: nat) {
    exists i :: 0 <= i < |slots| && slots[i].id == id
  }

  /** What the read guards of all slots answer in a state. */
  function Reporting(s: System): nat -> bool {
    (id: nat) => id in s.slots && DirectRead.Reusable(s, id)
  }

  predicate AllEnabled(s: System, steps: seq<Step>)
    decreases |steps|
  {
    steps != [] ==>
      s.executed <= |s.issued| && Enabled(s, steps[0]) && AllEnabled(Stepped(s, steps[0]), steps[1..])
  }

  function After(s: System, steps: seq<Step>): System
    requires AllEnabled(s, steps)
    decreases |steps|
  {
    if steps == [] then s else After(Stepped(s, steps[0]), steps[1..])
  }

  lemma {:induction false} AfterKeepsInv(s: System, steps: seq<Step>)
    requires Inv(s) && AllEnabled(s, steps)
    ensures Inv(After(s, steps))
    decreases |steps|
  {
    if steps != [] {
      StepKeepsInv(s, steps[0]);
      AfterKeepsInv(Stepped(s, steps[0]), steps[1..]);
    }
  }

  /** The pool is created with its warm slots unleased. */
  function WarmPool(warm: nat): Pool {
    Pool(seq(warm, (i: nat) => PoolSlot(i, false, 0)), warm)
  }

  function Unleased(warm: nat): (slots: map<nat, Slot>)
    ensures forall id: nat :: id in slots <==> id < warm
    ensures forall id <- slots :: slots[id] == Slot(false, false, map[])
  {
    if warm == 0 then map[] else Unleased(warm - 1)[warm - 1 := Slot(false, false, map[])]
  }

  function Warmed(warm: nat): System {
    INITIAL.(slots := Unleased(warm), nextId := warm)
  }

  /** The steps that make slots `n` and up: each is grown and its lease dropped. */
  function WarmSteps(n: nat, warm: nat): seq<Step>
    decreases warm - n
  {
    if n >= warm then [] else [Grow, DropLease(n)] + WarmSteps(n + 1, warm)
  }

  lemma {:induction false} WarmStepsWarm(n: nat, warm: nat)
    requires n <= warm
    ensures AllEnabled(Warmed(n), WarmSteps(n, warm)) && After(Warmed(n), WarmSteps(n, warm)) == Warmed(warm)
    decreases warm - n
  {
    if n < warm {
      var s, steps := Warmed(n), WarmSteps(n, warm);
      var grown := Stepped(s, Grow);
      assert Stepped(grown, DropLease(n)) == Warmed(n + 1);
      assert steps[1..] == [DropLease(n)] + WarmSteps(n + 1, warm);
      assert steps[1..][1..] == WarmSteps(n + 1, warm);
      WarmStepsWarm(n + 1, warm);
    }
  }

  /** The pool a capture starts with is mirrored by a reachable state. */
  lemma WarmPoolIsMirrored(warm: nat)
    ensures AllEnabled(INITIAL, WarmSteps(0, warm))
    ensures var s := After(INITIAL, WarmSteps(0, warm)); Mirrors(WarmPool(warm), s) && Inv(s)
  {
    assert Warmed(0) == INITIAL;
    WarmStepsWarm(0, warm);
    AfterKeepsInv(INITIAL, WarmSteps(0, warm));
    var p := WarmPool(warm);
    forall id | 0 <= id < warm
      ensures Listed(p.slots, id)
    {
      assert p.slots[id].id == id;
    }
  }

  /** The steps one `acquire` takes: the freed slots retire from the back. */
  function Retires(slots: seq<PoolSlot>, kept: nat): seq<Step> {
    if |slots| <= kept then []
    else [Retire(slots[|slots| - 1].id)] + Retires(slots[..|slots| - 1], kept)
  }

  function AcquireSteps(p: Pool, q: Pool, r: Acquired): seq<Step> {
    match r
    case Taken(id) => [Step.Acquire(id)] + Retires(p.slots, |q.slots|)
    case Grown(_) => [Grow]
    case _ => []
  }

  /** An unleased slot whose reads have all finished. */
  predicate Spare(s: System, slot: PoolSlot) {
    slot.id in s.slots && !slot.leased && DirectRead.Reusable(s, slot.id)
  }

  lemma TakenIsAcquire(p: Pool, s: System, k: nat, now: int)
    requires Mirrors(p, s) && s.executed <= |s.issued| && k < |p.slots| && Spare(s, p.slots[k])
    ensures var id := p.slots[k].id;
            && Enabled(s, Step.Acquire(id))
            && Mirrors(p.(slots := p.slots[k := PoolSlot(id, true, now)]), Stepped(s, Step.Acquire(id)))
            && forall slot | Spare(s, slot) :: Spare(Stepped(s, Step.Acquire(id)), slot)
  {
    var id := p.slots[k].id;
    assert HasSlot(s, p.slots[k]);
    var t, slots := Stepped(s, Step.Acquire(id)), p.slots[k := PoolSlot(id, true, now)];
    forall i | 0 <= i < |slots|
      ensures HasSlot(t, slots[i])
    {
      assert HasSlot(s, p.slots[i]);
    }
    forall other <- t.slots
      ensures Listed(slots, other)
    {
      assert Listed(p.slots, other);
      var i :| 0 <= i < |p.slots| && p.slots[i].id == other;
      assert slots[i].id == other;
    }
  }

  lemma RemovalIsRetire(p: Pool, s: System)
    requires Mirrors(p, s) && s.executed <= |s.issued| && p.slots != [] && Spare(s, p.slots[|p.slots| - 1])
    ensures var id := p.slots[|p.slots| - 1].id;
            && Enabled(s, Retire(id))
            && Mirrors(p.(slots := p.slots[..|p.slots| - 1]), Stepped(s, Retire(id)))
            && forall slot | Spare(s, slot) && slot.id != id :: Spare(Stepped(s, Retire(id)), slot)
  {
    var n := |p.slots| - 1;
    assert HasSlot(s, p.slots[n]);
    var t, slots := Stepped(s, Retire(p.slots[n].id)), p.slots[..n];
    forall i | 0 <= i < n
      ensures HasSlot(t, slots[i])
    {
      assert HasSlot(s, p.slots[i]);
    }
    forall other <- t.slots
      ensures Listed(slots, other)
    {
      assert Listed(p.slots, other);
      var i :| 0 <= i < |p.slots| && p.slots[i].id == other;
      assert slots[i].id == other;
    }
  }

  lemma GrownIsGrow(p: Pool, s: System, now: int)
    requires Mirrors(p, s) && Inv(s)
    ensures Mirrors(Pool(p.slots + [PoolSlot(p.nextId, true, now)], p.nextId + 1), Stepped(s, Grow))
  {
    var t, slots := Stepped(s, Grow), p.slots + [PoolSlot(p.nextId, true, now)];
    forall i | 0 <= i < |slots|
      ensures HasSlot(t, slots[i])
    {
      assert i < |p.slots| ==> HasSlot(s, p.slots[i]);
    }
    forall other <- t.slots
      ensures Listed(slots, other)
    {
      if other in s.slots {
        assert Listed(p.slots, other);
        var i :| 0 <= i < |p.slots| && p.slots[i].id == other;
        assert slots[i].id == other;
      } else {
        assert slots[|p.slots|].id == other;
      }
    }
  }

  ghost predicate AllSpare(s: System, slots: seq<PoolSlot>, from: nat) {
    forall i :: from <= i < |slots| ==> Spare(s, slots[i])
  }

  /** What frees the slots from `from` on. */
  ghost predicate Freeable(p: Pool, s: System, from: nat) {
    Mirrors(p, s) && s.executed <= |s.issued| && from <= |p.slots| && AllSpare(s, p.slots, from)
  }

  lemma RemovalLeavesSpare(p: Pool, s: System, from: nat)
    requires Freeable(p, s, from) && from < |p.slots|
    ensures var step := Retire(p.slots[|p.slots| - 1].id);
            && s.executed <= |s.issued| && Enabled(s, step)
            && Freeable(p.(slots := p.slots[..|p.slots| - 1]), Stepped(s, step), from)
  {
    RemovalIsRetire(p, s);
  }

  lemma AllEnabledCons(s: System, step: Step, rest: seq<Step>)
    requires s.executed <= |s.issued| && Enabled(s, step) && AllEnabled(Stepped(s, step), rest)
    ensures AllEnabled(s, [step] + rest) && After(s, [step] + rest) == After(Stepped(s, step), rest)
  {
    assert ([step] + rest)[1..] == rest;
  }

  /** The steps are enabled in turn and lead to a state with the pool's slots. */
  ghost predicate Leads(s: System, steps: seq<Step>, p: Pool) {
    AllEnabled(s, steps) && Mirrors(p, After(s, steps))
  }

  lemma LeadsCons(s: System, step: Step, rest: seq<Step>, p: Pool)
    requires s.executed <= |s.issued| && Enabled(s, step) && Leads(Stepped(s, step), rest, p)
    ensures Leads(s, [step] + rest, p)
  {
    AllEnabledCons(s, step, rest);
  }

  lemma LeadsNowhere(s: System, p: Pool)
    requires Mirrors(p, s)
    ensures Leads(s, [], p)
  {
  }

  lemma {:induction false} RemovalsAreRetires(p: Pool, s: System, kept: nat, slots: seq<PoolSlot>)
    requires Freeable(p, s, kept) && slots == p.slots[..kept]
    ensures Leads(s, Retires(p.slots, kept), p.(slots := slots))
    decreases |p.slots|
  {
    if kept == |p.slots| {
      assert slots == p.slots;
      LeadsNowhere(s, p);
    } else {
      RemovalLeavesSpare(p, s, kept);
      var n := |p.slots| - 1;
      var step, front := Retire(p.slots[n].id), p.(slots := p.slots[..n]);
      assert front.slots[..kept] == slots;
      RemovalsAreRetires(front, Stepped(s, step), kept, slots);
      LeadsCons(s, step, Retires(front.slots, kept), p.(slots := slots));
    }
  }

  /** Each call of `acquire` is steps of the protocol, and the two stay mirrored. */
  lemma AcquireIsSteps(p: Pool, s: System, warm: nat, now: int, createOk: bool)
    requires Mirrors(p, s) && Inv(s)
    ensures var (q, r) := Acquiring(p, warm, now, Reporting(s), createOk);
            Leads(s, AcquireSteps(p, q, r), q) && Inv(After(s, AcquireSteps(p, q, r)))
  {
    var (q, r) := Acquiring(p, warm, now, Reporting(s), createOk);
    var steps := AcquireSteps(p, q, r);
    match r {
      case Taken(id) => TakenIsSteps(p, s, warm, now, createOk);
      case Grown(_) =>
        GrownIsGrow(p, s, now);
        assert steps[1..] == [];
      case _ =>
    }
    AfterKeepsInv(s, steps);
  }

  lemma TakenIsSteps(p: Pool, s: System, warm: nat, now: int, createOk: bool)
    requires Mirrors(p, s) && Inv(s)
    requires Acquiring(p, warm, now, Reporting(s), createOk).1.Taken?
    ensures var (q, r) := Acquiring(p, warm, now, Reporting(s), createOk);
            Leads(s, AcquireSteps(p, q, r), q)
  {
    var reusable := Reporting(s);
    var (q, r) := Acquiring(p, warm, now, reusable, createOk);
    var k, n := FirstFree(p.slots, reusable), |q.slots|;
    TakenKeepsOthers(p, k, warm, now, reusable);
    forall i | n <= i < |p.slots|
      ensures Spare(s, p.slots[i])
    {
      assert Idle(p.slots[i], now, reusable);
    }
    LeaseThenRetire(p, s, k, now, n);
  }

  lemma LeaseThenRetire(p: Pool, s: System, k: nat, now: int, n: nat)
    requires Mirrors(p, s) && Inv(s) && k < n <= |p.slots|
    requires Spare(s, p.slots[k]) && AllSpare(s, p.slots, n)
    ensures var id := p.slots[k].id;
            var steps := [Step.Acquire(id)] + Retires(p.slots, n);
            Leads(s, steps, p.(slots := p.slots[k := PoolSlot(id, true, now)][..n]))
  {
    var id := p.slots[k].id;
    var leased := p.(slots := p.slots[k := PoolSlot(id, true, now)]);
    TakenIsAcquire(p, s, k, now);
    var t := Stepped(s, Step.Acquire(id));
    StepKeepsInv(s, Step.Acquire(id));
    assert AllSpare(t, leased.slots, n);
    RetiresById(p.slots, leased.slots, n);
    RemovalsAreRetires(leased, t, n, leased.slots[..n]);
    LeadsCons(s, Step.Acquire(id), Retires(p.slots, n), leased.(slots := leased.slots[..n]));
  }

  lemma {:induction false} RetiresById(a: seq<PoolSlot>, b: seq<PoolSlot>, kept: nat)
    requires |a| == |b| && forall i :: 0 <= i < |a| ==> a[i].id == b[i].id
    ensures Retires(a, kept) == Retires(b, kept)
  {
    if kept < |a| {
      RetiresById(a[..|a| - 1], b[..|b| - 1], kept);
    }
  }

  // ------------------------------------------------------------- runs of the pool

  /** The pool is called, a lease is dropped, or anything else happens in the protocol. */
  datatype Move = Call(now: int, createOk: bool) | EndLease(id: nat) | Other(step: Step)

  predicate TouchesPool(step: Step) {
    step.Acquire? || step.Grow? || step.Retire? || step.DropLease?
  }

  predicate MoveEnabled(s: System, move: Move) {
    match move
    case Call(_, _) => true
    case EndLease(id) => Enabled(s, DropLease(id))
    case Other(step) => !TouchesPool(step) && Enabled(s, step)
  }

  /** The slot's lease flag is cleared; nothing else of the pool changes. */
  function LeaseEnded(slots: seq<PoolSlot>, id: nat): (r: seq<PoolSlot>)
    ensures |r| == |slots|
    ensures forall i :: 0 <= i < |r| ==>
              r[i] == if slots[i].id == id then slots[i].(leased := false) else slots[i]
  {
    seq(|slots|, i requires 0 <= i < |slots| =>
      if slots[i].id == id then slots[i].(leased := false) else slots[i])
  }

  /** How pool and protocol move together. */
  ghost predicate Moves(p: Pool, s: System, warm: nat, move: Move, q: Pool, t: System) {
    && MoveEnabled(s, move) && s.executed <= |s.issued|
    && match move
       case Call(now, createOk) =>
         var (after, r) := Acquiring(p, warm, now, Reporting(s), createOk);
         q == after && AllEnabled(s, AcquireSteps(p, q, r)) && t == After(s, AcquireSteps(p, q, r))
       case EndLease(id) => q == p.(slots := LeaseEnded(p.slots, id)) && t == Stepped(s, DropLease(id))
       case Other(step) => q == p && t == Stepped(s, step)
  }

  lemma LeaseEndIsDropLease(p: Pool, s: System, id: nat)
    requires Mirrors(p, s) && s.executed <= |s.issued| && Enabled(s, DropLease(id))
    ensures Mirrors(p.(slots := LeaseEnded(p.slots, id)), Stepped(s, DropLease(id)))
  {
    var t, slots := Stepped(s, DropLease(id)), LeaseEnded(p.slots, id);
    forall i | 0 <= i < |slots|
      ensures HasSlot(t, slots[i])
    {
      assert HasSlot(s, p.slots[i]);
    }
    forall other <- t.slots
      ensures Listed(slots, other)
    {
      assert Listed(p.slots, other);
      var i :| 0 <= i < |p.slots| && p.slots[i].id == other;
      assert slots[i].id == other;
    }
  }

  lemma OtherStepsKeepMirror(p: Pool, s: System, step: Step)
    requires Mirrors(p, s) && s.executed <= |s.issued| && Enabled(s, step) && !TouchesPool(step)
    ensures Mirrors(p, Stepped(s, step))
  {
    var t := Stepped(s, step);
    forall i | 0 <= i < |p.slots|
      ensures HasSlot(t, p.slots[i])
    {
      assert HasSlot(s, p.slots[i]);
    }
    assert forall id <- t.slots :: id in s.slots;
  }

  lemma MoveKeepsMirror(p: Pool, s: System, warm: nat, move: Move, q: Pool, t: System)
    requires Mirrors(p, s) && Inv(s) && Moves(p, s, warm, move, q, t)
    ensures Mirrors(q, t) && Inv(t)
  {
    match move {
      case Call(now, createOk) => AcquireIsSteps(p, s, warm, now, createOk);
      case EndLease(id) =>
        LeaseEndIsDropLease(p, s, id);
        StepKeepsInv(s, DropLease(id));
      case Other(step) =>
        OtherStepsKeepMirror(p, s, step);
        StepKeepsInv(s, step);
    }
  }

  /** A capture from its first warm pool on: `pools[i]` beside `systems[i]`. */
  ghost predicate IsCapture(warm: nat, pools: seq<Pool>, systems: seq<System>, moves: seq<Move>) {
    && |pools| == |systems| == |moves| + 1
    && pools[0] == WarmPool(warm) && systems[0] == Warmed(warm)
    && forall i :: 0 <= i < |moves| ==>
         Moves(pools[i], systems[i], warm, moves[i], pools[i + 1], systems[i + 1])
  }

  lemma {:induction false} CaptureIsMirrored(
    warm: nat, pools: seq<Pool>, systems: seq<System>, moves: seq<Move>, n: nat)
    requires IsCapture(warm, pools, systems, moves) && n < |pools|
    ensures Mirrors(pools[n], systems[n]) && Inv(systems[n])
  {
    if n == 0 {
      WarmPoolIsMirrored(warm);
      WarmStepsWarm(0, warm);
      assert Warmed(0) == INITIAL;
    } else {
      CaptureIsMirrored(warm, pools, systems, moves, n - 1);
      MoveKeepsMirror(pools[n - 1], systems[n - 1], warm, moves[n - 1], pools[n], systems[n]);
    }
  }

  /** The call hands out slot `k` of the pool, or frees it. */
  ghost predicate Leaves(p: Pool, after: (Pool, Acquired), k: nat)
    requires k < |p.slots|
  {
    after.1 == Taken(p.slots[k].id) || !Listed(after.0.slots, p.slots[k].id)
  }

  /** In every capture, whatever the readers and queues do in between, a slot that a call hands
      out from the pool or frees has no lease, no read still to execute and no reader part way
      through it. */
  lemma PoolNeverReusesUnderARead(
    warm: nat, pools: seq<Pool>, systems: seq<System>, moves: seq<Move>, n: nat, k: nat)
    requires IsCapture(warm, pools, systems, moves) && n < |moves| && moves[n].Call?
    requires k < |pools[n].slots|
    requires Leaves(pools[n], Acquiring(pools[n], warm, moves[n].now, Reporting(systems[n]), moves[n].createOk), k)
    ensures !pools[n].slots[k].leased && Unread(systems[n], pools[n].slots[k].id)
  {
    CaptureIsMirrored(warm, pools, systems, moves, n);
    LeavingSlotIsUnread(pools[n], systems[n], warm, moves[n].now, moves[n].createOk, k);
  }

  lemma LeavingSlotIsUnread(p: Pool, s: System, warm: nat, now: int, createOk: bool, k: nat)
    requires Mirrors(p, s) && Inv(s) && k < |p.slots|
    requires Leaves(p, Acquiring(p, warm, now, Reporting(s), createOk), k)
    ensures !p.slots[k].leased && Unread(s, p.slots[k].id)
  {
    if !Free(p.slots[k], Reporting(s)) {
      BusySlotStays(p, warm, now, Reporting(s), createOk, k);
      assert false;
    }
    ReusableIsUnread(s, p.slots[k].id);
  }

  /** A slot that is not free stays, and another one is handed out. */
  lemma BusySlotStays(p: Pool, warm: nat, now: int, reusable: nat -> bool, createOk: bool, k: nat)
    requires DistinctIds(p.slots, p.nextId) && k < |p.slots| && !Free(p.slots[k], reusable)
    ensures !Leaves(p, Acquiring(p, warm, now, reusable, createOk), k)
  {
    var (q, r) := Acquiring(p, warm, now, reusable, createOk);
    var i := FirstFree(p.slots, reusable);
    if i < |p.slots| {
      TakenKeepsOthers(p, i, warm, now, reusable);
      assert !Idle(p.slots[k], now, reusable);
    }
    assert q.slots[k].id == p.slots[k].id;
  }
}
