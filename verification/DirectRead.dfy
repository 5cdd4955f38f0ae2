/** Guarded direct reads: encoder queues read capture textures in place, without making
    the capture queue wait. A slot is handed out again only when its CPU lease is gone
    and every read armed on it has completed. */
module DirectRead {
  import opened Basics

  /** Commands of the capture GPU queue. There is no wait among them. */
  datatype Command = Write(slot: nat, image: int) | SignalReady(reader: nat, value: nat)

  /** Commands of one encoder GPU queue; `Read` carries the image its frame names. */
  datatype ReadCommand =
    | AwaitReady(value: nat)
    | Read(slot: nat, image: int, value: nat)
    | SignalConsumed(value: nat)

  /** The read guard of a slot: the last value each reader's completion fence must reach. */
  type Guard = map<nat, nat>

  datatype Slot = Slot(leased: bool, published: bool, guard: Guard)

  /** A reader between `begin` and `end`: the slot it reads, the image the frame published
      in it, and how far it has come. */
  datatype Phase =
    | Resting
    | Armed(slot: nat, image: int)
    | Signalled(slot: nat, image: int)
    | Awaited(slot: nat, image: int)

  /** `marks` remembers where in the capture queue each ready signal was queued (history). */
  datatype Reader = Reader(
    sequence: nat, ready: nat, consumed: nat, queue: seq<ReadCommand>, phase: Phase, marks: map<nat, nat>)

  const NEW_READER := Reader(0, 0, 0, [], Resting, map[])

  /** `issued` is everything ever queued for the capture GPU, `executed` how much has run;
      `seen` pairs the image each executed read was meant to see with the one it saw. */
  datatype System = System(
    slots: map<nat, Slot>, nextId: nat, readers: seq<Reader>,
    issued: seq<Command>, executed: nat, seen: seq<(int, int)>)

  const INITIAL := System(map[], 0, [], [], 0, [])

  /** The image in a texture: the last executed write to it. */
  function LastWrite(log: seq<Command>, slot: nat): int {
    if log == [] then 0
    else
      var last := log[|log| - 1];
      if last.Write? && last.slot == slot then last.image else LastWrite(log[..|log| - 1], slot)
  }

  predicate Writes(c: Command, slot: nat) {
    c.Write? && c.slot == slot
  }

  predicate Reusable(s: System, id: nat)
    requires id in s.slots
  {
    forall i | i in s.slots[id].guard :: i < |s.readers| ==> s.readers[i].consumed >= s.slots[id].guard[i]
  }

  datatype Step =
    | Acquire(id: nat)
    | Grow
    | Retire(id: nat)
    | QueueWrite(id: nat, image: int)
    | Publish(id: nat)
    | DropLease(id: nat)
    | NewReader
    | Arm(reader: nat, id: nat)
    | QueueSignal(reader: nat, ok: bool)
    | QueueAwait(reader: nat, ok: bool)
    | QueueRead(reader: nat)
    | End(reader: nat, ok: bool)
    | CaptureExecutes
    | ReaderExecutes(reader: nat)

  predicate Enabled(s: System, step: Step) {
    match step
    case Acquire(id) => id in s.slots && !s.slots[id].leased && Reusable(s, id)
    case Grow => true
    case Retire(id) => id in s.slots && !s.slots[id].leased && Reusable(s, id)
    case QueueWrite(id, _) => id in s.slots && s.slots[id].leased && !s.slots[id].published
    case Publish(id) => id in s.slots && s.slots[id].leased
    case DropLease(id) => id in s.slots && s.slots[id].leased
    case NewReader => true
    case Arm(i, id) =>
      && i < |s.readers| && s.readers[i].phase == Resting
      && id in s.slots && s.slots[id].leased && s.slots[id].published
    case QueueSignal(i, _) => i < |s.readers| && s.readers[i].phase.Armed?
    case QueueAwait(i, _) => i < |s.readers| && s.readers[i].phase.Signalled?
    case QueueRead(i) => i < |s.readers| && s.readers[i].phase.Awaited?
    case End(i, _) => i < |s.readers| && s.readers[i].phase.Awaited?
    case CaptureExecutes => s.executed < |s.issued|
    case ReaderExecutes(i) =>
      && i < |s.readers| && s.readers[i].queue != []
      && (s.readers[i].queue[0].AwaitReady? ==> s.readers[i].ready >= s.readers[i].queue[0].value)
  }

  function WithReader(s: System, i: nat, r: Reader): System
    requires i < |s.readers|
  {
    s.(readers := s.readers[i := r])
  }

  function Stepped(s: System, step: Step): System
    requires Enabled(s, step) && s.executed <= |s.issued|
  {
    match step
    case Acquire(id) => s.(slots := s.slots[id := s.slots[id].(leased := true, published := false)])
    case Grow => s.(slots := s.slots[s.nextId := Slot(true, false, map[])], nextId := s.nextId + 1)
    case Retire(id) => s.(slots := s.slots - {id})
    case QueueWrite(id, image) => s.(issued := s.issued + [Write(id, image)])
    case Publish(id) => s.(slots := s.slots[id := s.slots[id].(published := true)])
    case DropLease(id) => s.(slots := s.slots[id := s.slots[id].(leased := false)])
    case NewReader => s.(readers := s.readers + [NEW_READER])
    case Arm(i, id) =>
      var r := s.readers[i];
      var guard := s.slots[id].guard[i := r.sequence + 1];
      WithReader(s, i, r.(sequence := r.sequence + 1, phase := Armed(id, LastWrite(s.issued, id))))
        .(slots := s.slots[id := s.slots[id].(guard := guard)])
    case QueueSignal(i, ok) =>
      var r := s.readers[i];
      if ok then
        WithReader(s, i, r.(phase := Signalled(r.phase.slot, r.phase.image), marks := r.marks[r.sequence := |s.issued|]))
          .(issued := s.issued + [SignalReady(i, r.sequence)])
      else WithReader(s, i, r.(phase := Resting))
    case QueueAwait(i, ok) =>
      var r := s.readers[i];
      if ok then WithReader(s, i, r.(phase := Awaited(r.phase.slot, r.phase.image), queue := r.queue + [AwaitReady(r.sequence)]))
      else WithReader(s, i, r.(phase := Resting))
    case QueueRead(i) =>
      var r := s.readers[i];
      WithReader(s, i, r.(queue := r.queue + [Read(r.phase.slot, r.phase.image, r.sequence)]))
    case End(i, ok) =>
      var r := s.readers[i];
      WithReader(s, i, r.(phase := Resting,
                          queue := if ok then r.queue + [SignalConsumed(r.sequence)] else r.queue))
    case CaptureExecutes =>
      var c := s.issued[s.executed];
      var t := s.(executed := s.executed + 1);
      if c.SignalReady? && c.reader < |s.readers| then
        var r := s.readers[c.reader];
        WithReader(t, c.reader, r.(ready := Max(r.ready, c.value)))
      else t
    case ReaderExecutes(i) =>
      var r := s.readers[i];
      var t := WithReader(s, i, r.(queue := r.queue[1..]));
      match r.queue[0]
      case AwaitReady(_) => t
      case Read(slot, image, _) => t.(seen := s.seen + [(image, LastWrite(s.issued[..s.executed], slot))])
      case SignalConsumed(v) => WithReader(t, i, t.readers[i].(consumed := Max(r.consumed, v)))
  }

  ghost predicate IsRun(states: seq<System>, steps: seq<Step>) {
    && |states| == |steps| + 1
    && states[0] == INITIAL
    && forall i :: 0 <= i < |steps| ==>
         && states[i].executed <= |states[i].issued|
         && Enabled(states[i], steps[i])
         && states[i + 1] == Stepped(states[i], steps[i])
  }

  // -------------------------------------------------------------- the invariant

  /** The slot is under a guard of reader `i` that completes only at `value` or later. */
  ghost predicate Protected(s: System, i: nat, slot: nat, value: nat)
    requires i < |s.readers|
  {
    && slot in s.slots && s.slots[slot].published
    && i in s.slots[slot].guard && s.slots[slot].guard[i] >= value
    && s.readers[i].consumed < value
  }

  /** No write to the slot is queued after the ready signal for `value`. */
  ghost predicate Settled(s: System, i: nat, slot: nat, value: nat)
    requires i < |s.readers|
  {
    && value in s.readers[i].marks
    && forall n :: s.readers[i].marks[value] <= n < |s.issued| ==> !Writes(s.issued[n], slot)
  }

  ghost predicate ReadOk(s: System, i: nat, c: ReadCommand)
    requires i < |s.readers| && c.Read?
  {
    Protected(s, i, c.slot, c.value) && Settled(s, i, c.slot, c.value) && LastWrite(s.issued, c.slot) == c.image
  }

  ghost predicate PhaseOk(s: System, i: nat)
    requires i < |s.readers|
  {
    var r := s.readers[i];
    r.phase != Resting ==>
      && Protected(s, i, r.phase.slot, r.sequence)
      && LastWrite(s.issued, r.phase.slot) == r.phase.image
      && (!r.phase.Armed? ==> Settled(s, i, r.phase.slot, r.sequence))
  }

  /** Values never fall along a reader's queue, and nothing follows a completion at its value. */
  ghost predicate QueueOrdered(r: Reader) {
    && (forall n :: 0 <= n < |r.queue| ==> r.queue[n].value <= r.sequence)
    && (forall n :: 0 <= n < |r.queue| && r.queue[n].SignalConsumed? && r.phase != Resting ==>
          r.queue[n].value < r.sequence)
    && (forall n, m :: 0 <= n < m < |r.queue| ==> r.queue[n].value <= r.queue[m].value)
    && (forall n, m :: 0 <= n < m < |r.queue| && r.queue[n].SignalConsumed? ==>
          r.queue[n].value < r.queue[m].value)
    && r.consumed <= r.sequence
  }

  /** Every queued read has a wait for its ready value before it, or needs none any more. */
  ghost predicate ReadsAwait(r: Reader) {
    && (forall n :: 0 <= n < |r.queue| && r.queue[n].Read? ==>
          r.ready >= r.queue[n].value || AwaitReady(r.queue[n].value) in r.queue[..n])
    && (r.phase.Awaited? ==> r.ready >= r.sequence || AwaitReady(r.sequence) in r.queue)
  }

  ghost predicate MarksIncrease(marks: map<nat, nat>) {
    forall v <- marks, w <- marks :: v < w ==> marks[v] < marks[w]
  }

  /** The marks of a reader locate its ready signals, in increasing order. */
  ghost predicate MarksOk(s: System, i: nat)
    requires i < |s.readers|
  {
    var r := s.readers[i];
    && (forall v <- r.marks :: v <= r.sequence && r.marks[v] < |s.issued| && s.issued[r.marks[v]] == SignalReady(i, v))
    && MarksIncrease(r.marks)
    && (r.phase.Armed? ==> r.sequence !in r.marks)
    && (forall v <- r.marks :: r.marks[v] < s.executed ==> v <= r.ready)
    && (forall n :: 0 <= n < |r.queue| && r.queue[n].AwaitReady? ==> r.queue[n].value in r.marks)
    && (r.ready == 0 || (r.ready in r.marks && r.marks[r.ready] < s.executed))
    && 0 !in r.marks
  }

  ghost predicate ReadsOk(s: System, i: nat)
    requires i < |s.readers|
  {
    forall n :: 0 <= n < |s.readers[i].queue| && s.readers[i].queue[n].Read? ==>
      ReadOk(s, i, s.readers[i].queue[n])
  }

  ghost predicate ReaderInv(s: System, i: nat)
    requires i < |s.readers|
  {
    && PhaseOk(s, i) && ReadsOk(s, i) && MarksOk(s, i)
    && QueueOrdered(s.readers[i]) && ReadsAwait(s.readers[i])
  }

  ghost predicate GlobalInv(s: System) {
    && s.executed <= |s.issued|
    && (forall id <- s.slots :: id < s.nextId && forall i <- s.slots[id].guard :: i < |s.readers|)
    && (forall n :: 0 <= n < |s.issued| && s.issued[n].Write? ==> s.issued[n].slot < s.nextId)
    && (forall n :: 0 <= n < |s.issued| && s.issued[n].SignalReady? ==>
          && s.issued[n].reader < |s.readers|
          && s.issued[n].value in s.readers[s.issued[n].reader].marks
          && s.readers[s.issued[n].reader].marks[s.issued[n].value] == n)
    && (forall o <- s.seen :: o.0 == o.1)
  }

  ghost predicate Inv(s: System) {
    GlobalInv(s) && forall i :: 0 <= i < |s.readers| ==> ReaderInv(s, i)
  }

  /** A read that is still to come keeps its slot from being handed out or retired. */
  lemma ProtectedIsNotReusable(s: System, i: nat, slot: nat, value: nat)
    requires i < |s.readers| && Protected(s, i, slot, value)
    ensures !Reusable(s, slot)
  {
    assert s.readers[i].consumed < s.slots[slot].guard[i];
  }

  lemma {:induction false} LastWriteUnchanged(log: seq<Command>, more: seq<Command>, slot: nat)
    requires forall n :: 0 <= n < |more| ==> !Writes(more[n], slot)
    ensures LastWrite(log + more, slot) == LastWrite(log, slot)
    decreases |more|
  {
    if more == [] {
      assert log + more == log;
    } else {
      var n := |more| - 1;
      assert (log + more)[..|log| + n] == log + more[..n];
      LastWriteUnchanged(log, more[..n], slot);
    }
  }

  predicate SlotStep(step: Step) {
    step.Acquire? || step.Grow? || step.Retire? || step.Publish? || step.DropLease? || step.QueueWrite?
  }

  /** Steps on slots leave a protected slot's guard and image alone. */
  lemma SlotStepKeepsProtected(s: System, step: Step, i: nat, slot: nat, value: nat)
    requires GlobalInv(s) && Enabled(s, step) && SlotStep(step) && i < |s.readers|
    requires Protected(s, i, slot, value)
    ensures Protected(Stepped(s, step), i, slot, value)
    ensures LastWrite(Stepped(s, step).issued, slot) == LastWrite(s.issued, slot)
    ensures Settled(s, i, slot, value) ==> Settled(Stepped(s, step), i, slot, value)
  {
    ProtectedIsNotReusable(s, i, slot, value);
    if step.QueueWrite? {
      LastWriteUnchanged(s.issued, [Write(step.id, step.image)], slot);
    }
  }

  lemma SlotStepKeepsReader(s: System, step: Step, i: nat)
    requires GlobalInv(s) && Enabled(s, step) && SlotStep(step) && i < |s.readers| && ReaderInv(s, i)
    ensures ReaderInv(Stepped(s, step), i)
  {
    var t := Stepped(s, step);
    var r := s.readers[i];
    assert t.readers == s.readers && s.issued <= t.issued && t.executed == s.executed;
    if r.phase != Resting {
      SlotStepKeepsProtected(s, step, i, r.phase.slot, r.sequence);
    }
    forall n | 0 <= n < |r.queue| && r.queue[n].Read?
      ensures ReadOk(t, i, r.queue[n])
    {
      assert ReadOk(s, i, r.queue[n]);
      SlotStepKeepsProtected(s, step, i, r.queue[n].slot, r.queue[n].value);
    }
  }

  lemma SlotStepKeepsInv(s: System, step: Step)
    requires Inv(s) && Enabled(s, step) && SlotStep(step)
    ensures Inv(Stepped(s, step))
  {
    forall i | 0 <= i < |s.readers|
      ensures ReaderInv(Stepped(s, step), i)
    {
      assert ReaderInv(s, i);
      SlotStepKeepsReader(s, step, i);
    }
  }

  /** A reader's own CPU step keeps its invariant. */
  lemma ArmKeepsReader(s: System, i: nat, id: nat)
    requires Inv(s) && Enabled(s, Arm(i, id))
    ensures ReaderInv(Stepped(s, Arm(i, id)), i)
  {
    assert ReaderInv(s, i);
    var t := Stepped(s, Arm(i, id));
    var r := s.readers[i];
    forall n | 0 <= n < |r.queue| && r.queue[n].Read?
      ensures ReadOk(t, i, r.queue[n])
    {
      assert ReadOk(s, i, r.queue[n]);
    }
  }

  lemma SignalKeepsMarks(s: System, i: nat)
    requires Enabled(s, QueueSignal(i, true)) && s.executed <= |s.issued| && MarksOk(s, i) && PhaseOk(s, i)
    ensures MarksOk(Stepped(s, QueueSignal(i, true)), i)
  {
    var r := s.readers[i];
    assert Stepped(s, QueueSignal(i, true)).issued[..|s.issued|] == s.issued;
    assert MarksIncrease(r.marks[r.sequence := |s.issued|]);
  }

  lemma SignalKeepsReads(s: System, i: nat)
    requires Enabled(s, QueueSignal(i, true)) && s.executed <= |s.issued|
    requires PhaseOk(s, i) && ReadsOk(s, i) && MarksOk(s, i)
    ensures PhaseOk(Stepped(s, QueueSignal(i, true)), i) && ReadsOk(Stepped(s, QueueSignal(i, true)), i)
  {
    var t := Stepped(s, QueueSignal(i, true));
    var r := s.readers[i];
    assert t.issued[..|s.issued|] == s.issued;
    assert Protected(s, i, r.phase.slot, r.sequence);
    forall n | 0 <= n < |r.queue| && r.queue[n].Read?
      ensures ReadOk(t, i, r.queue[n])
    {
      assert ReadOk(s, i, r.queue[n]);
    }
  }

  lemma SignalKeepsReader(s: System, i: nat)
    requires Enabled(s, QueueSignal(i, true)) && s.executed <= |s.issued| && ReaderInv(s, i)
    ensures ReaderInv(Stepped(s, QueueSignal(i, true)), i)
  {
    SignalKeepsMarks(s, i);
    SignalKeepsReads(s, i);
  }

  /** Appending the command of the current round keeps a reader's queue in order. */
  lemma AppendKeepsOrder(r: Reader, c: ReadCommand, phase: Phase)
    requires QueueOrdered(r) && r.phase != Resting && c.value == r.sequence
    requires c.SignalConsumed? ==> phase == Resting
    ensures QueueOrdered(r.(queue := r.queue + [c], phase := phase))
  {
    var q := r.queue + [c];
    assert forall n :: 0 <= n < |r.queue| ==> q[n] == r.queue[n];
    assert q[|r.queue|] == c;
  }

  lemma AppendKeepsAwaits(r: Reader, c: ReadCommand, phase: Phase)
    requires ReadsAwait(r) && c.value == r.sequence
    requires c.Read? ==> r.phase.Awaited?
    requires phase.Awaited? ==> c.AwaitReady? || r.phase.Awaited?
    ensures ReadsAwait(r.(queue := r.queue + [c], phase := phase))
  {
    var q := r.queue + [c];
    forall n | 0 <= n < |q| && q[n].Read?
      ensures r.ready >= q[n].value || AwaitReady(q[n].value) in q[..n]
    {
      assert q[..n] == r.queue[..n];
    }
  }

  /** What a reader's GPU progress and queueing leave of its reads and marks. */
  lemma SameMemoryKeepsReads(s: System, t: System, i: nat, c: Option<ReadCommand>)
    requires i < |s.readers| && t == s.(readers := t.readers) && |t.readers| == |s.readers|
    requires ReadsOk(s, i) && PhaseOk(s, i)
    requires t.readers[i].marks == s.readers[i].marks && t.readers[i].consumed == s.readers[i].consumed
    requires t.readers[i].queue == s.readers[i].queue + if c.Some? then [c.value] else []
    requires c.Some? && c.value.Read? ==>
               && s.readers[i].phase.Awaited?
               && c.value == Read(s.readers[i].phase.slot, s.readers[i].phase.image, s.readers[i].sequence)
    ensures ReadsOk(t, i)
  {
    var q, q' := s.readers[i].queue, t.readers[i].queue;
    forall n | 0 <= n < |q'| && q'[n].Read?
      ensures ReadOk(t, i, q'[n])
    {
      if n < |q| {
        assert q'[n] == q[n];
        assert ReadOk(s, i, q[n]);
      }
    }
  }

  lemma AppendKeepsPhase(s: System, t: System, i: nat, c: ReadCommand)
    requires i < |s.readers| && t == s.(readers := t.readers) && |t.readers| == |s.readers|
    requires PhaseOk(s, i) && MarksOk(s, i) && s.readers[i].phase != Resting
    requires t.readers[i] == s.readers[i].(queue := s.readers[i].queue + [c], phase := t.readers[i].phase)
    requires t.readers[i].phase != Resting ==>
               && !s.readers[i].phase.Armed? && !t.readers[i].phase.Armed?
               && t.readers[i].phase.slot == s.readers[i].phase.slot
               && t.readers[i].phase.image == s.readers[i].phase.image
    requires c.AwaitReady? ==> c.value in s.readers[i].marks
    ensures PhaseOk(t, i) && MarksOk(t, i)
  {
  }

  lemma AppendKeepsReader(s: System, step: Step, i: nat, c: ReadCommand)
    requires Inv(s) && Enabled(s, step) && i < |s.readers|
    requires || (step == QueueAwait(i, true) && c == AwaitReady(s.readers[i].sequence))
             || (step == QueueRead(i) && c == Read(s.readers[i].phase.slot, s.readers[i].phase.image,
                                                   s.readers[i].sequence))
             || (step == End(i, true) && c == SignalConsumed(s.readers[i].sequence))
    ensures ReaderInv(Stepped(s, step), i)
  {
    assert ReaderInv(s, i);
    var t := Stepped(s, step);
    var r, r' := s.readers[i], t.readers[i];
    assert r' == r.(queue := r.queue + [c], phase := r'.phase);
    AppendKeepsOrder(r, c, r'.phase);
    AppendKeepsAwaits(r, c, r'.phase);
    SameMemoryKeepsReads(s, t, i, Some(c));
    AppendKeepsPhase(s, t, i, c);
  }

  lemma RestKeepsReader(s: System, step: Step, i: nat)
    requires Inv(s) && Enabled(s, step) && i < |s.readers|
    requires step == QueueAwait(i, false) || step == End(i, false) || step == QueueSignal(i, false)
    ensures ReaderInv(Stepped(s, step), i)
  {
    assert ReaderInv(s, i);
    var t := Stepped(s, step);
    var r := s.readers[i];
    assert t.readers[i] == r.(phase := Resting);
    forall n | 0 <= n < |r.queue| && r.queue[n].Read?
      ensures ReadOk(t, i, r.queue[n])
    {
      assert ReadOk(s, i, r.queue[n]);
    }
  }

  /** Reader `j` and everything it depends on are the same in both states. */
  ghost predicate Framed(s: System, t: System, j: nat) {
    && j < |s.readers| <= |t.readers| && t.readers[j] == s.readers[j]
    && t.executed == s.executed && s.issued <= t.issued
    && (forall n :: |s.issued| <= n < |t.issued| ==> !t.issued[n].Write?)
    && (forall id <- s.slots :: id in t.slots && t.slots[id].published == s.slots[id].published)
    && (forall id <- s.slots :: j in s.slots[id].guard ==>
          j in t.slots[id].guard && t.slots[id].guard[j] == s.slots[id].guard[j])
  }

  lemma FramedReaderUnaffected(s: System, t: System, j: nat)
    requires Framed(s, t, j) && ReaderInv(s, j)
    ensures ReaderInv(t, j)
  {
    var r := s.readers[j];
    var more := t.issued[|s.issued|..];
    assert t.issued == s.issued + more;
    if r.phase != Resting {
      assert Protected(s, j, r.phase.slot, r.sequence);
      LastWriteUnchanged(s.issued, more, r.phase.slot);
    }
    forall n | 0 <= n < |r.queue| && r.queue[n].Read?
      ensures ReadOk(t, j, r.queue[n])
    {
      assert ReadOk(s, j, r.queue[n]);
      LastWriteUnchanged(s.issued, more, r.queue[n].slot);
    }
  }

  predicate StepOf(step: Step, i: nat) {
    match step
    case Arm(r, _) => r == i
    case QueueSignal(r, _) => r == i
    case QueueAwait(r, _) => r == i
    case QueueRead(r) => r == i
    case End(r, _) => r == i
    case ReaderExecutes(r) => r == i
    case _ => false
  }

  lemma ReaderStepFramesOthers(s: System, step: Step, i: nat, j: nat)
    requires s.executed <= |s.issued| && Enabled(s, step) && StepOf(step, i)
    requires i < |s.readers| && j < |s.readers| && i != j
    ensures Framed(s, Stepped(s, step), j)
  {
  }

  lemma SignalKeepsGlobal(s: System, i: nat)
    requires GlobalInv(s) && Enabled(s, QueueSignal(i, true)) && MarksOk(s, i)
    ensures GlobalInv(Stepped(s, QueueSignal(i, true)))
  {
    var t := Stepped(s, QueueSignal(i, true));
    forall n | 0 <= n < |t.issued| && t.issued[n].SignalReady?
      ensures && t.issued[n].reader < |t.readers|
              && t.issued[n].value in t.readers[t.issued[n].reader].marks
              && t.readers[t.issued[n].reader].marks[t.issued[n].value] == n
    {
      if n < |s.issued| {
        assert t.issued[n] == s.issued[n];
      }
    }
  }

  lemma ReaderStepKeepsGlobal(s: System, step: Step, i: nat)
    requires Inv(s) && Enabled(s, step) && StepOf(step, i) && step != QueueSignal(i, true)
    requires step.ReaderExecutes? && s.readers[i].queue[0].Read? ==>
               LastWrite(s.issued[..s.executed], s.readers[i].queue[0].slot) == s.readers[i].queue[0].image
    ensures GlobalInv(Stepped(s, step))
  {
    var t := Stepped(s, step);
    assert t.issued == s.issued && |t.readers| == |s.readers|;
    assert forall j :: 0 <= j < |s.readers| ==> t.readers[j].marks == s.readers[j].marks;
  }

  lemma OwnStepKeepsReader(s: System, step: Step, i: nat)
    requires Inv(s) && Enabled(s, step) && StepOf(step, i)
    ensures ReaderInv(Stepped(s, step), i)
  {
    match step {
      case Arm(_, id) => ArmKeepsReader(s, i, id);
      case QueueSignal(_, ok) =>
        if ok {
          assert ReaderInv(s, i);
          SignalKeepsReader(s, i);
        } else {
          RestKeepsReader(s, step, i);
        }
      case QueueAwait(_, ok) =>
        if ok {
          AppendKeepsReader(s, step, i, AwaitReady(s.readers[i].sequence));
        } else {
          RestKeepsReader(s, step, i);
        }
      case QueueRead(_) =>
        var phase := s.readers[i].phase;
        AppendKeepsReader(s, step, i, Read(phase.slot, phase.image, s.readers[i].sequence));
      case End(_, ok) =>
        if ok {
          AppendKeepsReader(s, step, i, SignalConsumed(s.readers[i].sequence));
        } else {
          RestKeepsReader(s, step, i);
        }
      case ReaderExecutes(_) =>
        assert ReaderInv(s, i);
        PopKeepsReader(s, i);
    }
  }

  lemma ReaderStepKeepsInv(s: System, step: Step, i: nat)
    requires Inv(s) && Enabled(s, step) && StepOf(step, i)
    ensures Inv(Stepped(s, step))
  {
    if step.ReaderExecutes? && s.readers[i].queue[0].Read? {
      ReadSeesItsImage(s, i);
    }
    if step == QueueSignal(i, true) {
      assert ReaderInv(s, i);
      SignalKeepsGlobal(s, i);
    } else {
      ReaderStepKeepsGlobal(s, step, i);
    }
    OwnStepKeepsReader(s, step, i);
    var t := Stepped(s, step);
    forall j | 0 <= j < |t.readers|
      ensures ReaderInv(t, j)
    {
      if j != i {
        assert ReaderInv(s, j);
        ReaderStepFramesOthers(s, step, i, j);
        FramedReaderUnaffected(s, t, j);
      }
    }
  }

  lemma NewReaderKeepsInv(s: System)
    requires Inv(s)
    ensures Inv(Stepped(s, NewReader))
  {
    var t := Stepped(s, NewReader);
    forall i | 0 <= i < |t.readers|
      ensures ReaderInv(t, i)
    {
      if i < |s.readers| {
        assert ReaderInv(s, i);
        FramedReaderUnaffected(s, t, i);
      }
    }
  }

  lemma CaptureStepKeepsMarks(s: System, i: nat)
    requires GlobalInv(s) && Enabled(s, CaptureExecutes) && i < |s.readers| && MarksOk(s, i)
    ensures MarksOk(Stepped(s, CaptureExecutes), i)
  {
    var r, ready := s.readers[i], Stepped(s, CaptureExecutes).readers[i].ready;
    var c := s.issued[s.executed];
    if c.SignalReady? && c.reader == i {
      assert c.value in r.marks && r.marks[c.value] == s.executed;
    }
    forall v <- r.marks | r.marks[v] < s.executed + 1
      ensures v <= ready
    {
      if r.marks[v] == s.executed {
        assert c == SignalReady(i, v);
      }
    }
  }

  /** A later ready value leaves a reader's reads in order. */
  lemma ReadyKeepsReads(s: System, t: System, i: nat)
    requires i < |s.readers| == |t.readers| && t == s.(readers := t.readers, executed := t.executed)
    requires t.readers[i] == s.readers[i].(ready := t.readers[i].ready) && s.readers[i].ready <= t.readers[i].ready
    requires PhaseOk(s, i) && ReadsOk(s, i) && QueueOrdered(s.readers[i]) && ReadsAwait(s.readers[i])
    ensures PhaseOk(t, i) && ReadsOk(t, i) && QueueOrdered(t.readers[i]) && ReadsAwait(t.readers[i])
  {
    var r := s.readers[i];
    if r.phase != Resting {
      assert Protected(s, i, r.phase.slot, r.sequence);
    }
    forall n | 0 <= n < |r.queue| && r.queue[n].Read?
      ensures ReadOk(t, i, t.readers[i].queue[n])
    {
      assert ReadOk(s, i, r.queue[n]);
    }
  }

  lemma CaptureStepRaisesReady(s: System, i: nat)
    requires Enabled(s, CaptureExecutes) && s.executed <= |s.issued| && i < |s.readers|
    ensures var t := Stepped(s, CaptureExecutes);
            && |t.readers| == |s.readers| && t == s.(readers := t.readers, executed := t.executed)
            && t.readers[i] == s.readers[i].(ready := t.readers[i].ready)
            && s.readers[i].ready <= t.readers[i].ready
  {
  }

  lemma CaptureStepKeepsReader(s: System, i: nat)
    requires GlobalInv(s) && Enabled(s, CaptureExecutes) && i < |s.readers| && ReaderInv(s, i)
    ensures ReaderInv(Stepped(s, CaptureExecutes), i)
  {
    CaptureStepKeepsMarks(s, i);
    CaptureStepRaisesReady(s, i);
    ReadyKeepsReads(s, Stepped(s, CaptureExecutes), i);
  }

  lemma CaptureStepKeepsInv(s: System)
    requires Inv(s) && Enabled(s, CaptureExecutes)
    ensures Inv(Stepped(s, CaptureExecutes))
  {
    forall i | 0 <= i < |s.readers|
      ensures ReaderInv(Stepped(s, CaptureExecutes), i)
    {
      assert ReaderInv(s, i);
      CaptureStepKeepsReader(s, i);
    }
  }

  /** An executing read sees the image its frame was published with. */
  lemma ReadSeesItsImage(s: System, i: nat)
    requires Inv(s) && Enabled(s, ReaderExecutes(i)) && s.readers[i].queue[0].Read?
    ensures var c := s.readers[i].queue[0];
            LastWrite(s.issued[..s.executed], c.slot) == c.image
  {
    assert ReaderInv(s, i);
    var r := s.readers[i];
    var c := r.queue[0];
    assert ReadOk(s, i, c);
    assert r.queue[..0] == [];
    assert r.ready >= c.value;
    assert r.marks[c.value] <= r.marks[r.ready] < s.executed;
    assert s.issued == s.issued[..s.executed] + s.issued[s.executed..];
    LastWriteUnchanged(s.issued[..s.executed], s.issued[s.executed..], c.slot);
  }

  lemma PopKeepsOrder(r: Reader)
    requires QueueOrdered(r) && r.queue != []
    ensures QueueOrdered(r.(queue := r.queue[1..]))
  {
    var q := r.queue[1..];
    assert forall n :: 0 <= n < |q| ==> q[n] == r.queue[n + 1];
  }

  lemma PopKeepsAwait(r: Reader, n: nat)
    requires ReadsAwait(r) && 0 < n < |r.queue| && r.queue[n].Read?
    requires r.queue[0].AwaitReady? ==> r.ready >= r.queue[0].value
    ensures r.ready >= r.queue[n].value || AwaitReady(r.queue[n].value) in r.queue[1..][..n - 1]
  {
    var await := AwaitReady(r.queue[n].value);
    if r.ready < r.queue[n].value {
      var m :| 0 <= m < n && r.queue[m] == await;
      assert r.queue[1..][..n - 1][m - 1] == await;
    }
  }

  lemma PopKeepsAwaits(r: Reader)
    requires ReadsAwait(r) && r.queue != []
    requires r.queue[0].AwaitReady? ==> r.ready >= r.queue[0].value
    ensures ReadsAwait(r.(queue := r.queue[1..]))
  {
    var q := r.queue[1..];
    forall n | 0 <= n < |q| && q[n].Read?
      ensures r.ready >= q[n].value || AwaitReady(q[n].value) in q[..n]
    {
      PopKeepsAwait(r, n + 1);
    }
    if r.phase.Awaited? && r.ready < r.sequence {
      var m :| 0 <= m < |r.queue| && r.queue[m] == AwaitReady(r.sequence);
      assert q[m - 1] == AwaitReady(r.sequence);
    }
  }

  lemma PopKeepsReads(s: System, i: nat)
    requires i < |s.readers| && s.executed <= |s.issued| && Enabled(s, ReaderExecutes(i))
    requires ReadsOk(s, i) && QueueOrdered(s.readers[i])
    ensures ReadsOk(Stepped(s, ReaderExecutes(i)), i)
  {
    var t := Stepped(s, ReaderExecutes(i));
    var r, r' := s.readers[i], t.readers[i];
    forall n | 0 <= n < |r'.queue| && r'.queue[n].Read?
      ensures ReadOk(t, i, r'.queue[n])
    {
      assert r'.queue[n] == r.queue[n + 1];
      assert ReadOk(s, i, r.queue[n + 1]);
    }
  }

  lemma PopKeepsPhase(s: System, i: nat)
    requires i < |s.readers| && s.executed <= |s.issued| && Enabled(s, ReaderExecutes(i))
    requires PhaseOk(s, i) && QueueOrdered(s.readers[i])
    ensures PhaseOk(Stepped(s, ReaderExecutes(i)), i)
  {
    var r := s.readers[i];
    if r.phase != Resting {
      assert Protected(s, i, r.phase.slot, r.sequence);
    }
  }

  lemma PopKeepsMarks(s: System, t: System, i: nat)
    requires i < |s.readers| && t == s.(readers := t.readers, seen := t.seen) && |t.readers| == |s.readers|
    requires s.readers[i].queue != [] && MarksOk(s, i)
    requires t.readers[i] == s.readers[i].(queue := s.readers[i].queue[1..], consumed := t.readers[i].consumed)
    ensures MarksOk(t, i)
  {
    var q, r := t.readers[i].queue, s.readers[i].queue;
    assert forall n :: 0 <= n < |q| ==> q[n] == r[n + 1];
  }

  lemma PopKeepsReader(s: System, i: nat)
    requires s.executed <= |s.issued| && Enabled(s, ReaderExecutes(i)) && ReaderInv(s, i)
    ensures ReaderInv(Stepped(s, ReaderExecutes(i)), i)
  {
    var r, r' := s.readers[i], Stepped(s, ReaderExecutes(i)).readers[i];
    assert r' == r.(queue := r.queue[1..], consumed := r'.consumed);
    assert r'.consumed <= r.sequence;
    PopKeepsOrder(r);
    PopKeepsAwaits(r);
    PopKeepsReads(s, i);
    PopKeepsPhase(s, i);
    PopKeepsMarks(s, Stepped(s, ReaderExecutes(i)), i);
  }

  lemma StepKeepsInv(s: System, step: Step)
    requires Inv(s) && Enabled(s, step)
    ensures Inv(Stepped(s, step))
  {
    match step {
      case NewReader => NewReaderKeepsInv(s);
      case CaptureExecutes => CaptureStepKeepsInv(s);
      case ReaderExecutes(i) => ReaderStepKeepsInv(s, step, i);
      case Arm(i, _) => ReaderStepKeepsInv(s, step, i);
      case QueueSignal(i, _) => ReaderStepKeepsInv(s, step, i);
      case QueueAwait(i, _) => ReaderStepKeepsInv(s, step, i);
      case QueueRead(i) => ReaderStepKeepsInv(s, step, i);
      case End(i, _) => ReaderStepKeepsInv(s, step, i);
      case _ => SlotStepKeepsInv(s, step);
    }
  }

  lemma {:induction false} ReachableInv(states: seq<System>, steps: seq<Step>, n: nat)
    requires IsRun(states, steps) && n < |states|
    ensures Inv(states[n])
  {
    if n > 0 {
      ReachableInv(states, steps, n - 1);
      StepKeepsInv(states[n - 1], steps[n - 1]);
    }
  }

  // ---------------------------------------------------------------- the theorems

  /** No read of the slot is queued or being prepared. */
  ghost predicate Unread(s: System, id: nat) {
    forall i :: 0 <= i < |s.readers| ==>
      && (forall m :: 0 <= m < |s.readers[i].queue| && s.readers[i].queue[m].Read? ==>
            s.readers[i].queue[m].slot != id)
      && (s.readers[i].phase != Resting ==> s.readers[i].phase.slot != id)
  }

  lemma ReusableIsUnread(s: System, id: nat)
    requires Inv(s) && id in s.slots && Reusable(s, id)
    ensures Unread(s, id)
  {
    forall i | 0 <= i < |s.readers|
      ensures && (forall m :: 0 <= m < |s.readers[i].queue| && s.readers[i].queue[m].Read? ==>
                    s.readers[i].queue[m].slot != id)
              && (s.readers[i].phase != Resting ==> s.readers[i].phase.slot != id)
    {
      assert ReaderInv(s, i);
      var r := s.readers[i];
      if r.phase != Resting && r.phase.slot == id {
        ProtectedIsNotReusable(s, i, id, r.sequence);
      }
      forall m | 0 <= m < |r.queue| && r.queue[m].Read?
        ensures r.queue[m].slot != id
      {
        assert ReadOk(s, i, r.queue[m]);
        ProtectedIsNotReusable(s, i, r.queue[m].slot, r.queue[m].value);
      }
    }
  }

  /** No reachable state hands out (or frees) a slot that is leased, still has a read to
      execute, or is being read, however early its lease was dropped. */
  lemma NoSlotIsReusedUnderARead(states: seq<System>, steps: seq<Step>, n: nat, id: nat)
    requires IsRun(states, steps) && n < |steps|
    requires steps[n] == Acquire(id) || steps[n] == Retire(id)
    ensures !states[n].slots[id].leased && Unread(states[n], id)
  {
    ReachableInv(states, steps, n);
    ReusableIsUnread(states[n], id);
  }

  /** Every executed read saw the image its frame was published with, in every interleaving. */
  lemma EveryReadSeesItsFrame(states: seq<System>, steps: seq<Step>, n: nat, o: (int, int))
    requires IsRun(states, steps) && n < |states| && o in states[n].seen
    ensures o.0 == o.1
  {
    ReachableInv(states, steps, n);
  }

  /** Until reader `i` completes `value`, the slot is armed for it at `value` or later. */
  ghost predicate Withheld(s: System, i: nat, slot: nat, value: nat) {
    && i < |s.readers| && s.readers[i].sequence >= value
    && (s.readers[i].consumed < value ==>
          slot in s.slots && i in s.slots[slot].guard && s.slots[slot].guard[i] >= value)
  }

  lemma WithheldIsUnavailable(s: System, i: nat, slot: nat, value: nat)
    requires Withheld(s, i, slot, value) && s.readers[i].consumed < value
    ensures !Reusable(s, slot)
  {
    assert s.slots[slot].guard[i] > s.readers[i].consumed;
  }

  lemma StepKeepsWithheld(s: System, step: Step, i: nat, slot: nat, value: nat)
    requires GlobalInv(s) && Enabled(s, step) && Withheld(s, i, slot, value)
    ensures Withheld(Stepped(s, step), i, slot, value)
  {
    if s.readers[i].consumed < value {
      WithheldIsUnavailable(s, i, slot, value);
    }
  }

  lemma FailureWithholds(s: System, step: Step, i: nat)
    requires Inv(s) && Enabled(s, step) && (step == QueueSignal(i, false) || step == QueueAwait(i, false))
    ensures Withheld(Stepped(s, step), i, s.readers[i].phase.slot, s.readers[i].sequence)
  {
    assert ReaderInv(s, i);
    assert Protected(s, i, s.readers[i].phase.slot, s.readers[i].sequence);
  }

  lemma {:induction false} WithheldFromThenOn(
    states: seq<System>, steps: seq<Step>, n: nat, later: nat, i: nat, slot: nat, value: nat)
    requires IsRun(states, steps) && n <= later < |states| && Withheld(states[n], i, slot, value)
    ensures Withheld(states[later], i, slot, value)
    decreases later
  {
    if n < later {
      WithheldFromThenOn(states, steps, n, later - 1, i, slot, value);
      ReachableInv(states, steps, later - 1);
      StepKeepsWithheld(states[later - 1], steps[later - 1], i, slot, value);
    }
  }

  /** A begin that fails after arming leaves its slot in the pool and unavailable, in every
      later state, until the reader's completion fence reaches the armed value. */
  lemma FailedBeginStaysProtected(states: seq<System>, steps: seq<Step>, n: nat, later: nat, i: nat)
    requires IsRun(states, steps) && n < |steps| && n < later < |states|
    requires steps[n] == QueueSignal(i, false) || steps[n] == QueueAwait(i, false)
    ensures i < |states[later].readers|
    ensures var slot, armed := states[n].readers[i].phase.slot, states[n].readers[i].sequence;
            states[later].readers[i].consumed < armed ==>
              slot in states[later].slots && !Reusable(states[later], slot)
  {
    var slot, armed := states[n].readers[i].phase.slot, states[n].readers[i].sequence;
    ReachableInv(states, steps, n);
    FailureWithholds(states[n], steps[n], i);
    WithheldFromThenOn(states, steps, n + 1, later, i, slot, armed);
    if states[later].readers[i].consumed < armed {
      WithheldIsUnavailable(states[later], i, slot, armed);
    }
  }

  /** Capture never waits for a reader, and once it has run, no reader is blocked. */
  lemma ReadersNeverDeadlock(states: seq<System>, steps: seq<Step>, n: nat, i: nat)
    requires IsRun(states, steps) && n < |states| && i < |states[n].readers|
    requires states[n].readers[i].queue != []
    ensures Enabled(states[n], CaptureExecutes) || Enabled(states[n], ReaderExecutes(i))
  {
    ReachableInv(states, steps, n);
    assert ReaderInv(states[n], i);
  }
}
