/** The growing ring buffer that cuts a stream of samples into frames for noise suppression,
    as a first-in first-out sequence. */
module SampleRing {
  import opened Arithmetic
  import opened Basics

  /** The queue as a value: what it holds, and the greatest length it ever had. */
  datatype Fifo = Fifo(contents: seq<real>, maxDepth: nat)

  function Pushed(q: Fifo, sample: real): Fifo {
    Fifo(q.contents + [sample], Max(q.maxDepth, |q.contents| + 1))
  }

  /** Takes the oldest frame, once there is a whole one. */
  function Popped(q: Fifo, frameSize: nat): (Fifo, Option<seq<real>>) {
    if |q.contents| < frameSize then (q, None)
    else (q.(contents := q.contents[frameSize..]), Some(q.contents[..frameSize]))
  }

  lemma WrapOnce(x: nat, n: nat)
    requires x < n
    ensures (n + x) % n == x && x % n == x
  {
    DivisionIsUnique(n + x, 1, n);
    DivisionIsUnique(x, 0, n);
  }

  /** The modulo of the source never has to take off more than one length. */
  lemma Wrap(head: nat, i: nat, n: nat)
    requires head < n && i <= n
    ensures (head + i) % n == Slot(head, i, n)
  {
    if head + i >= n {
      WrapOnce(head + i - n, n);
    } else {
      WrapOnce(head + i, n);
    }
  }

  /** Where the i-th sample of a queue lies in a buffer of length `n`. */
  function Slot(head: nat, i: nat, n: nat): nat {
    if head + i < n then head + i else head + i - n
  }

  /** The samples a wrapped buffer holds, oldest first. */
  function Unwrapped(b: seq<real>, head: nat, size: nat): seq<real>
    requires head < |b| && size <= |b|
  {
    seq(size, i requires 0 <= i < size => b[Slot(head, i, |b|)])
  }

  lemma UnwrappedPush(b: seq<real>, head: nat, size: nat, sample: real)
    requires head < |b| && size < |b|
    ensures Unwrapped(b[Slot(head, size, |b|) := sample], head, size + 1) == Unwrapped(b, head, size) + [sample]
  {
  }

  lemma UnwrappedPop(b: seq<real>, head: nat, size: nat, n: nat)
    requires head < |b| && n <= size <= |b|
    ensures Slot(head, n, |b|) < |b| ==>
              Unwrapped(b, Slot(head, n, |b|), size - n) == Unwrapped(b, head, size)[n..]
  {
  }

  class RnnoiseFrameQueue {
    var buffer: array<real>
    var head: nat
    var size: nat
    var maxDepth: nat
    const frameSize: nat

    ghost predicate Valid()
      reads this
    {
      && 1 <= frameSize <= buffer.Length && head < buffer.Length && size <= buffer.Length
      && size <= maxDepth
    }

    ghost function Contents(): seq<real>
      reads this, buffer
      requires Valid()
    {
      Unwrapped(buffer[..], head, size)
    }

    ghost function State(): Fifo
      reads this, buffer
      requires Valid()
    {
      Fifo(Contents(), maxDepth)
    }

    constructor (requested: int)
      ensures Valid() && fresh(buffer) && State() == Fifo([], 0)
      ensures frameSize == Max(1, requested)
    {
      frameSize := Max(1, requested);
      head, size, maxDepth := 0, 0, 0;
      buffer := new real[Max(1, requested) * 4](_ => 0.0);
    }

    // Grows to at least twice the capacity; the wrapped contents are laid out from the start.
    method EnsureCapacity(required: nat)
      requires Valid()
      modifies this`buffer, this`head
      ensures Valid() && buffer.Length >= required && (fresh(buffer) || buffer == old(buffer))
      ensures State() == old(State())
    {
      if required <= buffer.Length { return; }
      var next := new real[Max(required, buffer.Length * 2)](_ => 0.0);
      ghost var contents := Contents();
      var i := 0;
      while i < size
        modifies next
        invariant i <= size && next[..i] == contents[..i]
        invariant buffer[..] == old(buffer[..])
      {
        Wrap(head, i, buffer.Length);
        next[i] := buffer[(head + i) % buffer.Length];
        i := i + 1;
      }
      buffer, head := next, 0;
      assert Contents() == next[..size];
    }

    method Push(sample: real)
      requires Valid()
      modifies this, buffer
      ensures Valid() && (fresh(buffer) || buffer == old(buffer))
      ensures State() == Pushed(old(State()), sample)
    {
      EnsureCapacity(size + 1);
      Wrap(head, size, buffer.Length);
      UnwrappedPush(buffer[..], head, size, sample);
      ghost var before := buffer[..];
      buffer[(head + size) % buffer.Length] := sample;
      assert buffer[..] == before[Slot(head, size, buffer.Length) := sample];
      size := size + 1;
      maxDepth := Max(maxDepth, size);
    }

    method PopFrame() returns (frame: Option<seq<real>>)
      requires Valid()
      modifies this
      ensures Valid() && buffer == old(buffer)
      ensures (State(), frame) == Popped(old(State()), frameSize)
      // A frame comes out exactly when a whole one is held, and it is the oldest.
      ensures frame.Some? <==> |old(Contents())| >= frameSize
      ensures frame.Some? ==> |frame.value| == frameSize && frame.value + Contents() == old(Contents())
      ensures frame.None? ==> Contents() == old(Contents())
    {
      if size < frameSize { return None; }
      ghost var contents := Contents();
      var taken: seq<real> := [];
      var i := 0;
      while i < frameSize
        modifies {}
        invariant i <= frameSize && taken == contents[..i]
      {
        Wrap(head, i, buffer.Length);
        taken := taken + [buffer[(head + i) % buffer.Length]];
        i := i + 1;
      }
      Wrap(head, frameSize, buffer.Length);
      UnwrappedPop(buffer[..], head, size, frameSize);
      head := (head + frameSize) % buffer.Length;
      size := size - frameSize;
      if size == 0 {
        head := 0;
        assert contents[frameSize..] == [];
      }
      assert Contents() == contents[frameSize..];
      frame := Some(taken);
    }
  }

  // ------------------------------------------------------------------ whole runs

  datatype Operation = Push(sample: real) | Pop

  function Applied(q: Fifo, op: Operation, frameSize: nat): Fifo {
    match op
    case Push(sample) => Pushed(q, sample)
    case Pop => Popped(q, frameSize).0
  }

  ghost predicate IsRun(states: seq<Fifo>, ops: seq<Operation>, frameSize: nat) {
    && |states| == |ops| + 1 && states[0] == Fifo([], 0)
    && forall k :: 0 <= k < |ops| ==> states[k + 1] == Applied(states[k], ops[k], frameSize)
  }

  /** The frames a run pops, one after the other. */
  function Delivered(states: seq<Fifo>, ops: seq<Operation>, frameSize: nat, n: nat): seq<real>
    requires n <= |ops| && n <= |states|
  {
    if n == 0 then []
    else
      var popped := Popped(states[n - 1], frameSize).1;
      Delivered(states, ops, frameSize, n - 1)
      + if ops[n - 1] == Pop && popped.Some? then popped.value else []
  }

  function Given(ops: seq<Operation>, n: nat): seq<real>
    requires n <= |ops|
  {
    if n == 0 then []
    else Given(ops, n - 1) + if ops[n - 1].Push? then [ops[n - 1].sample] else []
  }

  lemma PopKeepsStream(before: seq<real>, held: seq<real>, n: nat)
    requires n <= |held|
    ensures (before + held[..n]) + held[n..] == before + held
  {
  }

  /** Nothing is lost, repeated or reordered: what was popped, then what is still held, is
      what was pushed. */
  lemma {:induction false} FramesFollowTheStream(states: seq<Fifo>, ops: seq<Operation>, frameSize: nat, n: nat)
    requires IsRun(states, ops, frameSize) && n <= |ops|
    ensures Delivered(states, ops, frameSize, n) + states[n].contents == Given(ops, n)
  {
    if n > 0 {
      FramesFollowTheStream(states, ops, frameSize, n - 1);
      var held, before := states[n - 1].contents, Delivered(states, ops, frameSize, n - 1);
      assert states[n] == Applied(states[n - 1], ops[n - 1], frameSize);
      assert before + [] == before;
      match ops[n - 1] {
        case Push(sample) =>
          assert before + (held + [sample]) == (before + held) + [sample];
        case Pop =>
          assert Given(ops, n - 1) + [] == Given(ops, n - 1);
          if |held| >= frameSize {
            PopKeepsStream(before, held, frameSize);
          }
      }
    }
  }

  /** The recorded depth is the greatest length ever reached. */
  lemma {:induction false} MaxDepthIsGreatest(states: seq<Fifo>, ops: seq<Operation>, frameSize: nat, n: nat)
    returns (at: nat)
    requires IsRun(states, ops, frameSize) && n <= |ops|
    ensures forall k :: 0 <= k <= n ==> |states[k].contents| <= states[n].maxDepth
    ensures at <= n && |states[at].contents| == states[n].maxDepth
  {
    at := 0;
    if n > 0 {
      at := MaxDepthIsGreatest(states, ops, frameSize, n - 1);
      assert states[n] == Applied(states[n - 1], ops[n - 1], frameSize);
      if states[n].maxDepth > states[n - 1].maxDepth {
        at := n;
      }
    }
  }
}
