/** The two-fence bridge between the capture GPU queue and the encoder GPU queue.
    Each queue executes its commands in order; a wait blocks its queue until the fence
    has reached the awaited value. Nothing else orders the two queues. */
module GpuHandoff {
  import opened Basics

  datatype Fence = Ready | Done

  datatype Command =
    | Wait(fence: Fence, value: nat)
    | Signal(fence: Fence, value: nat)
    | CopyIn(image: nat)
    | ReadOut(round: nat)

  /** What the CPU has queued so far in the current round. */
  datatype Stage = Idle | Waited | Copied | Signalled | Reading

  /** One executed conversion: the round it belongs to and the image it saw. */
  datatype Observation = Observation(round: nat, image: nat)

  /** `bridge` is the image in the shared texture; `produced` and `consumed` are the
      commands each GPU queue has executed (history). */
  datatype System = System(
    sequence: nat, stage: Stage,
    producer: seq<Command>, consumer: seq<Command>,
    ready: nat, done: nat, bridge: nat,
    seen: seq<Observation>, produced: seq<Command>, consumed: seq<Command>)

  const INITIAL := System(0, Idle, [], [], 0, 0, 0, [], [], [])

  datatype Step =
    | QueueWait          // begin: wait for the previous round's reads, skipped in the first round
    | QueueCopy          // begin: copy the next image into the bridge
    | QueueReadySignal   // begin: announce the copy
    | QueueReadyWait     // begin: hold the consumer until the copy is done
    | QueueRead          // convert: any number of reads of the bridge
    | QueueDoneSignal    // end: announce that the reads are done
    | ProducerExecutes
    | ConsumerExecutes

  predicate Runnable(s: System, c: Command) {
    match c
    case Wait(Ready, v) => s.ready >= v
    case Wait(Done, v) => s.done >= v
    case _ => true
  }

  function Execute(s: System, c: Command): System {
    match c
    case Wait(_, _) => s
    case Signal(Ready, v) => s.(ready := Max(s.ready, v))
    case Signal(Done, v) => s.(done := Max(s.done, v))
    case CopyIn(image) => s.(bridge := image)
    case ReadOut(round) => s.(seen := s.seen + [Observation(round, s.bridge)])
  }

  predicate Enabled(s: System, step: Step) {
    match step
    case QueueWait => s.stage == Idle
    case QueueCopy => s.stage == Waited
    case QueueReadySignal => s.stage == Copied
    case QueueReadyWait => s.stage == Signalled
    case QueueRead => s.stage == Reading
    case QueueDoneSignal => s.stage == Reading
    case ProducerExecutes => s.producer != [] && Runnable(s, s.producer[0])
    case ConsumerExecutes => s.consumer != [] && Runnable(s, s.consumer[0])
  }

  function Stepped(s: System, step: Step): System
    requires Enabled(s, step)
  {
    match step
    case QueueWait =>
      s.(stage := Waited,
         producer := if s.sequence > 0 then s.producer + [Wait(Done, s.sequence)] else s.producer)
    case QueueCopy => s.(stage := Copied, producer := s.producer + [CopyIn(s.sequence + 1)])
    case QueueReadySignal =>
      s.(stage := Signalled, sequence := s.sequence + 1,
         producer := s.producer + [Signal(Ready, s.sequence + 1)])
    case QueueReadyWait => s.(stage := Reading, consumer := s.consumer + [Wait(Ready, s.sequence)])
    case QueueRead => s.(consumer := s.consumer + [ReadOut(s.sequence)])
    case QueueDoneSignal => s.(stage := Idle, consumer := s.consumer + [Signal(Done, s.sequence)])
    case ProducerExecutes =>
      Execute(s, s.producer[0]).(producer := s.producer[1..], produced := s.produced + [s.producer[0]])
    case ConsumerExecutes =>
      Execute(s, s.consumer[0]).(consumer := s.consumer[1..], consumed := s.consumed + [s.consumer[0]])
  }

  ghost predicate IsRun(states: seq<System>, steps: seq<Step>) {
    && |states| == |steps| + 1
    && states[0] == INITIAL
    && forall i :: 0 <= i < |steps| ==>
         Enabled(states[i], steps[i]) && states[i + 1] == Stepped(states[i], steps[i])
  }

  // ------------------------------------------------------- the shape of the queues

  /** Where a queue stands in the protocol: rounds completed, and how far into the next. */
  datatype Place = Place(round: nat, at: Stage)

  const PRODUCER_START := Place(0, Waited)
  const CONSUMER_START := Place(0, Idle)

  /** Round r of the producer: wait for the reads of round r - 1, copy image r, announce it.
      The first round starts past its wait. */
  function ProducerMove(p: Place, c: Command): Option<Place> {
    match p.at
    case Idle => if c == Wait(Done, p.round) then Some(p.(at := Waited)) else None
    case Waited => if c == CopyIn(p.round + 1) then Some(p.(at := Copied)) else None
    case Copied => if c == Signal(Ready, p.round + 1) then Some(Place(p.round + 1, Idle)) else None
    case _ => None
  }

  /** Round r of the consumer: wait for image r, any number of reads, announce them. */
  function ConsumerMove(p: Place, c: Command): Option<Place> {
    match p.at
    case Idle => if c == Wait(Ready, p.round + 1) then Some(p.(at := Reading)) else None
    case Reading =>
      if c == ReadOut(p.round + 1) then Some(p)
      else if c == Signal(Done, p.round + 1) then Some(Place(p.round + 1, Idle))
      else None
    case _ => None
  }

  function Move(p: Place, c: Command, producing: bool): Option<Place> {
    if producing then ProducerMove(p, c) else ConsumerMove(p, c)
  }

  /** Where a queue stands after executing `q`, when `q` follows the protocol. */
  function Follow(p: Place, q: seq<Command>, producing: bool): Option<Place>
    decreases |q|
  {
    if q == [] then Some(p)
    else
      var next := Move(p, q[0], producing);
      if next.None? then None else Follow(next.value, q[1..], producing)
  }

  lemma {:induction false} FollowAppend(p: Place, q: seq<Command>, c: Command, producing: bool)
    requires Follow(p, q, producing).Some?
    ensures Follow(p, q + [c], producing) == Move(Follow(p, q, producing).value, c, producing)
    decreases |q|
  {
    if q == [] {
      assert (q + [c])[1..] == [];
    } else {
      assert (q + [c])[1..] == q[1..] + [c];
      FollowAppend(Move(p, q[0], producing).value, q[1..], c, producing);
    }
  }

  lemma {:induction false} FollowAdvances(p: Place, q: seq<Command>, producing: bool)
    requires Follow(p, q, producing).Some?
    ensures var end := Follow(p, q, producing).value;
            && p.round <= end.round
            && (p.at != Idle && end.at == Idle ==> p.round < end.round)
    decreases |q|
  {
    if q != [] {
      FollowAdvances(Move(p, q[0], producing).value, q[1..], producing);
    }
  }

  function ProducerIssued(s: System): Place {
    if s.stage == Copied then Place(s.sequence, Copied)
    else if s.stage == Waited || s.sequence == 0 then Place(s.sequence, Waited)
    else Place(s.sequence, Idle)
  }

  function ConsumerIssued(s: System): Place {
    if s.stage == Reading && s.sequence > 0 then Place(s.sequence - 1, Reading)
    else if s.stage == Signalled && s.sequence > 0 then Place(s.sequence - 1, Idle)
    else Place(s.sequence, Idle)
  }

  /** What the executed reads must have seen. */
  function Expected(consumed: seq<Command>): seq<Observation> {
    if consumed == [] then []
    else
      var last := consumed[|consumed| - 1];
      Expected(consumed[..|consumed| - 1])
      + if last.ReadOut? then [Observation(last.round, last.round)] else []
  }

  // -------------------------------------------------------------- the invariant

  ghost predicate Inv(s: System) {
    var p := Follow(PRODUCER_START, s.produced, true);
    var c := Follow(CONSUMER_START, s.consumed, false);
    && p.Some? && c.Some?
    && Follow(p.value, s.producer, true) == Some(ProducerIssued(s))
    && Follow(c.value, s.consumer, false) == Some(ConsumerIssued(s))
    && (s.stage in {Signalled, Reading} ==> s.sequence > 0)
    && s.ready == p.value.round
    && s.bridge == (if p.value.at == Copied then p.value.round + 1 else p.value.round)
    && s.done == c.value.round
    && s.done <= s.ready <= s.done + 1
    && (p.value.at != Idle ==> s.ready <= s.done)
    && (c.value.at == Reading ==> s.ready == s.done + 1)
    && s.seen == Expected(s.consumed)
  }

  lemma ProducerCpuStepKeepsInv(s: System, step: Step)
    requires Inv(s) && Enabled(s, step) && (step == QueueWait || step == QueueCopy || step == QueueReadySignal)
    ensures Inv(Stepped(s, step))
  {
    var p := Follow(PRODUCER_START, s.produced, true).value;
    match step {
      case QueueWait => FollowAppend(p, s.producer, Wait(Done, s.sequence), true);
      case QueueCopy => FollowAppend(p, s.producer, CopyIn(s.sequence + 1), true);
      case QueueReadySignal => FollowAppend(p, s.producer, Signal(Ready, s.sequence + 1), true);
    }
  }

  lemma ConsumerCpuStepKeepsInv(s: System, step: Step)
    requires Inv(s) && Enabled(s, step) && (step == QueueReadyWait || step == QueueRead || step == QueueDoneSignal)
    ensures Inv(Stepped(s, step))
  {
    var c := Follow(CONSUMER_START, s.consumed, false).value;
    match step {
      case QueueReadyWait => FollowAppend(c, s.consumer, Wait(Ready, s.sequence), false);
      case QueueRead => FollowAppend(c, s.consumer, ReadOut(s.sequence), false);
      case QueueDoneSignal => FollowAppend(c, s.consumer, Signal(Done, s.sequence), false);
    }
  }

  lemma ProducerStepKeepsInv(s: System)
    requires Inv(s) && Enabled(s, ProducerExecutes)
    ensures Inv(Stepped(s, ProducerExecutes))
  {
    FollowAppend(PRODUCER_START, s.produced, s.producer[0], true);
  }

  lemma ExpectedAppend(consumed: seq<Command>, c: Command)
    ensures Expected(consumed + [c])
         == Expected(consumed) + if c.ReadOut? then [Observation(c.round, c.round)] else []
  {
    assert (consumed + [c])[..|consumed|] == consumed;
  }

  lemma ConsumerStepSees(s: System)
    requires Inv(s) && Enabled(s, ConsumerExecutes)
    ensures Stepped(s, ConsumerExecutes).seen == Expected(Stepped(s, ConsumerExecutes).consumed)
  {
    ExpectedAppend(s.consumed, s.consumer[0]);
  }

  lemma ConsumerStepKeepsInv(s: System)
    requires Inv(s) && Enabled(s, ConsumerExecutes)
    ensures Inv(Stepped(s, ConsumerExecutes))
  {
    FollowAppend(CONSUMER_START, s.consumed, s.consumer[0], false);
    ConsumerStepSees(s);
  }

  lemma {:induction false} ReachableInv(states: seq<System>, steps: seq<Step>, i: nat)
    requires IsRun(states, steps) && i < |states|
    ensures Inv(states[i])
  {
    if i > 0 {
      ReachableInv(states, steps, i - 1);
      var s := states[i - 1];
      match steps[i - 1] {
        case ProducerExecutes => ProducerStepKeepsInv(s);
        case ConsumerExecutes => ConsumerStepKeepsInv(s);
        case QueueReadyWait => ConsumerCpuStepKeepsInv(s, QueueReadyWait);
        case QueueRead => ConsumerCpuStepKeepsInv(s, QueueRead);
        case QueueDoneSignal => ConsumerCpuStepKeepsInv(s, QueueDoneSignal);
        case step => ProducerCpuStepKeepsInv(s, step);
      }
    }
  }

  // ---------------------------------------------------------------- the theorems

  lemma {:induction false} ExpectedSeesOwnImage(consumed: seq<Command>, o: Observation)
    requires o in Expected(consumed)
    ensures o.image == o.round
  {
    var last := consumed[|consumed| - 1];
    if o in Expected(consumed[..|consumed| - 1]) {
      ExpectedSeesOwnImage(consumed[..|consumed| - 1], o);
    }
  }

  /** In every interleaving, a conversion of round k has read exactly image k. */
  lemma EveryReadSeesItsOwnImage(states: seq<System>, steps: seq<Step>, i: nat, o: Observation)
    requires IsRun(states, steps) && i < |states| && o in states[i].seen
    ensures o.image == o.round
  {
    ReachableInv(states, steps, i);
    ExpectedSeesOwnImage(states[i].consumed, o);
  }

  lemma {:induction false} DoneNeverFalls(states: seq<System>, steps: seq<Step>, i: nat, j: nat)
    requires IsRun(states, steps) && i <= j < |states|
    ensures states[i].done <= states[j].done
    decreases j
  {
    if i < j {
      DoneNeverFalls(states, steps, i, j - 1);
    }
  }

  /** Once copy k + 1 executes, no conversion of round k or earlier executes any more. */
  lemma NoReadAfterItsImageIsReplaced(states: seq<System>, steps: seq<Step>, i: nat, j: nat, k: nat)
    requires IsRun(states, steps) && i < j < |steps|
    requires steps[i] == ProducerExecutes && states[i].producer[0] == CopyIn(k + 1)
    requires steps[j] == ConsumerExecutes && states[j].consumer[0].ReadOut?
    ensures states[j].consumer[0].round > k
  {
    ReachableInv(states, steps, i);
    ReachableInv(states, steps, j);
    DoneNeverFalls(states, steps, i, j);
  }

  /** After complete rounds, at least one queue that still holds commands can step. */
  lemma NeverDeadlocked(states: seq<System>, steps: seq<Step>, i: nat)
    requires IsRun(states, steps) && i < |states|
    requires states[i].stage == Idle && (states[i].producer != [] || states[i].consumer != [])
    ensures Enabled(states[i], ProducerExecutes) || Enabled(states[i], ConsumerExecutes)
  {
    var s := states[i];
    ReachableInv(states, steps, i);
    FollowAdvances(Follow(PRODUCER_START, s.produced, true).value, s.producer, true);
    FollowAdvances(Follow(CONSUMER_START, s.consumed, false).value, s.consumer, false);
    if s.consumer != [] {
      var head := Move(Follow(CONSUMER_START, s.consumed, false).value, s.consumer[0], false).value;
      FollowAdvances(head, s.consumer[1..], false);
    }
  }

  /** So both queues drain, and every conversion queued has then run on its own image. */
  lemma {:induction false} BothQueuesDrain(states: seq<System>, steps: seq<Step>)
    returns (all: seq<System>, more: seq<Step>)
    requires IsRun(states, steps) && states[|steps|].stage == Idle
    ensures IsRun(all, more) && steps <= more && states <= all
    ensures forall i :: |steps| <= i < |more| ==> more[i] in {ProducerExecutes, ConsumerExecutes}
    ensures all[|more|].producer == [] && all[|more|].consumer == []
    ensures all[|more|].done == all[|more|].ready == all[|more|].sequence == states[|steps|].sequence
    decreases |states[|steps|].producer| + |states[|steps|].consumer|
  {
    var s := states[|steps|];
    ReachableInv(states, steps, |steps|);
    if s.producer == [] && s.consumer == [] {
      return states, steps;
    }
    NeverDeadlocked(states, steps, |steps|);
    var step := if Enabled(s, ProducerExecutes) then ProducerExecutes else ConsumerExecutes;
    all, more := BothQueuesDrain(states + [Stepped(s, step)], steps + [step]);
    assert more[|steps|] == step by {
      assert (steps + [step])[|steps|] == step;
    }
  }

  // ------------------------------------------------------------- the CPU object

  /** The CPU side. The flags say which driver calls succeed. */
  class GpuFrameHandoff {
    var sequence: nat
    var producer: seq<Command>
    var consumer: seq<Command>

    constructor ()
      ensures sequence == 0 && producer == [] && consumer == []
    {
      sequence, producer, consumer := 0, [], [];
    }

    // On success, exactly the four steps of a round's opening; on failure, a prefix of them.
    method Begin(waitOk: bool, signalOk: bool, consumerOk: bool) returns (ok: bool)
      modifies this
      ensures ok == ((old(sequence) == 0 || waitOk) && signalOk && consumerOk)
      ensures forall s: System | && s.stage == Idle && s.sequence == old(sequence)
                                 && s.producer == old(producer) && s.consumer == old(consumer) ::
                ok ==>
                  var t := Stepped(Stepped(Stepped(Stepped(s, QueueWait), QueueCopy),
                                           QueueReadySignal), QueueReadyWait);
                  t == s.(stage := Reading, sequence := sequence, producer := producer, consumer := consumer)
      ensures !ok ==> consumer == old(consumer) && old(producer) <= producer
    {
      ok := true;
      if sequence > 0 {
        ok := waitOk;
        if ok {
          producer := producer + [Wait(Done, sequence)];
        }
      }
      if ok {
        producer := producer + [CopyIn(sequence + 1)];
        sequence := sequence + 1;
        ok := signalOk;
        if ok {
          producer := producer + [Signal(Ready, sequence)];
        }
      }
      if ok {
        ok := consumerOk;
        if ok {
          consumer := consumer + [Wait(Ready, sequence)];
        }
      }
    }

    // On success, exactly the step that closes the round `Begin` opened; on failure, nothing.
    method End(signalOk: bool) returns (ok: bool)
      modifies this`consumer
      ensures ok == (sequence > 0 && signalOk)
      ensures forall s: System | && s.stage == Reading && s.sequence == sequence
                                 && s.producer == producer && s.consumer == old(consumer) ::
                ok ==> Stepped(s, QueueDoneSignal) == s.(stage := Idle, consumer := consumer)
      ensures !ok ==> consumer == old(consumer)
    {
      ok := sequence > 0 && signalOk;
      if ok {
        consumer := consumer + [Signal(Done, sequence)];
      }
    }
  }
}
