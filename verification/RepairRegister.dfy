/** The lock-free register of the earliest point the audio replay must be rebuilt from. Any
    number of threads lower it with compare-and-swap loops; the worker takes it with one
    exchange. Weak compare-and-swap may fail for no reason. */
module RepairRegister {
  import opened Basics

  /** A thread inside the loop holds the value it last saw in the register. */
  datatype Thread = Resting | Trying(request: int, seen: int)

  /** `since` holds the requests that took effect since the last exchange (history). */
  datatype State = State(register: int, threads: seq<Thread>, since: seq<int>)

  datatype Step =
    | Load(thread: nat, pts: int)     // enter the loop: clamp the request, read the register
    | SwapOk(thread: nat)             // the register still holds what the thread saw
    | SwapFails(thread: nat)          // it does not, or the hardware fails for no reason
    | Exchange                        // the worker takes the point and clears the register

  /** The loop goes on while the register is empty or later than the request. */
  predicate Retries(request: int, seen: int) {
    seen == 0 || request < seen
  }

  predicate Enabled(s: State, step: Step) {
    match step
    case Load(i, _) => i < |s.threads| && s.threads[i] == Resting
    case SwapOk(i) => i < |s.threads| && s.threads[i].Trying? && s.register == s.threads[i].seen
    case SwapFails(i) => i < |s.threads| && s.threads[i].Trying?
    case Exchange => true
  }

  /** A thread that has just read the register either retries or is finished: its request is
      no earlier than what is already there. */
  function AfterRead(s: State, i: nat, request: int): State
    requires i < |s.threads|
  {
    if Retries(request, s.register) then s.(threads := s.threads[i := Trying(request, s.register)])
    else s.(threads := s.threads[i := Resting], since := s.since + [request])
  }

  function Stepped(s: State, step: Step): State
    requires Enabled(s, step)
  {
    match step
    case Load(i, pts) => AfterRead(s, i, Max(1, pts))
    case SwapOk(i) =>
      State(s.threads[i].request, s.threads[i := Resting], s.since + [s.threads[i].request])
    case SwapFails(i) => AfterRead(s, i, s.threads[i].request)
    case Exchange => s.(register := 0, since := [])
  }

  /** The request a step makes effective, if any. A call ends exactly when its request does. */
  function Effective(s: State, step: Step): Option<int>
    requires Enabled(s, step)
  {
    match step
    case Load(i, pts) => if Retries(Max(1, pts), s.register) then None else Some(Max(1, pts))
    case SwapOk(i) => Some(s.threads[i].request)
    case SwapFails(i) => if Retries(s.threads[i].request, s.register) then None else Some(s.threads[i].request)
    case Exchange => None
  }

  ghost predicate IsRun(states: seq<State>, steps: seq<Step>, threads: nat) {
    && |states| == |steps| + 1
    && states[0] == State(0, seq(threads, i => Resting), [])
    && forall k :: 0 <= k < |steps| ==> Enabled(states[k], steps[k]) && states[k + 1] == Stepped(states[k], steps[k])
  }

  /** The register is the least of the requests, or zero when there is none. */
  ghost predicate IsMinimum(register: int, since: seq<int>) {
    && (register == 0 <==> since == [])
    && (forall r <- since :: 1 <= register <= r)
    && (register != 0 ==> register in since)
  }

  ghost predicate Inv(s: State) {
    && IsMinimum(s.register, s.since)
    && forall i :: 0 <= i < |s.threads| && s.threads[i].Trying? ==>
         s.threads[i].request >= 1 && Retries(s.threads[i].request, s.threads[i].seen)
  }

  /** A request that is earlier replaces the minimum; one that is not leaves it. */
  lemma MinimumGrows(register: int, since: seq<int>, request: int)
    requires IsMinimum(register, since) && request >= 1
    ensures IsMinimum(if Retries(request, register) then request else register, since + [request])
  {
    forall r | r in since + [request]
      ensures r in since || r == request
    {
    }
    assert (since + [request])[|since|] == request;
  }

  lemma StepKeepsInv(s: State, step: Step)
    requires Inv(s) && Enabled(s, step)
    ensures Inv(Stepped(s, step))
  {
    match step {
      case Load(i, pts) => MinimumGrows(s.register, s.since, Max(1, pts));
      case SwapOk(i) => MinimumGrows(s.register, s.since, s.threads[i].request);
      case SwapFails(i) => MinimumGrows(s.register, s.since, s.threads[i].request);
      case Exchange =>
    }
  }

  lemma {:induction false} ReachableInv(states: seq<State>, steps: seq<Step>, threads: nat, k: nat)
    requires IsRun(states, steps, threads) && k < |states|
    ensures Inv(states[k])
  {
    if k > 0 {
      ReachableInv(states, steps, threads, k - 1);
      StepKeepsInv(states[k - 1], steps[k - 1]);
    }
  }

  /** In every interleaving the register is the least of the requests that took effect since
      the last exchange, and zero exactly when there is none. */
  lemma RegisterIsTheMinimum(states: seq<State>, steps: seq<Step>, threads: nat, k: nat)
    requires IsRun(states, steps, threads) && k < |states|
    ensures IsMinimum(states[k].register, states[k].since)
  {
    ReachableInv(states, steps, threads, k);
  }

  lemma {:induction false} EffectiveStaysUntilExchange(
    states: seq<State>, steps: seq<Step>, threads: nat, m: nat, n: nat, request: int)
    requires IsRun(states, steps, threads) && m < n < |states|
    requires Effective(states[m], steps[m]) == Some(request)
    requires forall k :: m < k < n ==> steps[k] != Exchange
    ensures request in states[n].since
  {
    if n == m + 1 {
      assert states[n] == Stepped(states[m], steps[m]);
    } else {
      EffectiveStaysUntilExchange(states, steps, threads, m, n - 1, request);
      assert states[n] == Stepped(states[n - 1], steps[n - 1]);
    }
  }

  /** No request is lost: the first exchange after it took effect returns a point, and one no
      later than it. */
  lemma NextExchangeCoversRequest(
    states: seq<State>, steps: seq<Step>, threads: nat, m: nat, n: nat, request: int)
    requires IsRun(states, steps, threads) && m < n < |steps|
    requires Effective(states[m], steps[m]) == Some(request)
    requires steps[n] == Exchange && forall k :: m < k < n ==> steps[k] != Exchange
    ensures 1 <= states[n].register <= request
  {
    EffectiveStaysUntilExchange(states, steps, threads, m, n, request);
    ReachableInv(states, steps, threads, n);
  }

  /** Nor is one invented: what an exchange returns was asked for since the one before. */
  lemma {:induction false} ExchangeReturnsARequest(states: seq<State>, steps: seq<Step>, threads: nat, n: nat)
    returns (m: nat)
    requires IsRun(states, steps, threads) && n < |states| && states[n].register != 0
    ensures m < n && Effective(states[m], steps[m]) == Some(states[n].register)
    ensures forall k :: m < k < n ==> steps[k] != Exchange
  {
    ReachableInv(states, steps, threads, n);
    m := EffectiveFor(states, steps, threads, n, states[n].register);
  }

  lemma {:induction false} EffectiveFor(states: seq<State>, steps: seq<Step>, threads: nat, n: nat, request: int)
    returns (m: nat)
    requires IsRun(states, steps, threads) && n < |states| && request in states[n].since
    ensures m < n && Effective(states[m], steps[m]) == Some(request)
    ensures forall k :: m < k < n ==> steps[k] != Exchange
  {
    var s, step := states[n - 1], steps[n - 1];
    assert states[n] == Stepped(s, step);
    if request in s.since {
      m := EffectiveFor(states, steps, threads, n - 1, request);
    } else {
      m := n - 1;
    }
  }

  // ------------------------------------------------------------------ what was asked

  /** A thread in the loop is there for a call it made, with the point asked for or 1. */
  lemma {:induction false} TryingWasAsked(states: seq<State>, steps: seq<Step>, threads: nat, n: nat, i: nat)
    returns (m: nat, pts: int)
    requires IsRun(states, steps, threads) && n < |states| && i < |states[n].threads|
    requires states[n].threads[i].Trying?
    ensures m < n && steps[m] == Load(i, pts)
    ensures states[n].threads[i].request == if pts < 1 then 1 else pts
  {
    var s, step := states[n - 1], steps[n - 1];
    assert states[n] == Stepped(s, step);
    if step.Load? && step.thread == i {
      m, pts := n - 1, step.pts;
    } else {
      m, pts := TryingWasAsked(states, steps, threads, n - 1, i);
    }
  }

  /** What an exchange returns is a point some call asked for, or 1 if it asked for less. */
  lemma {:induction false} ExchangedWasAsked(states: seq<State>, steps: seq<Step>, threads: nat, n: nat)
    returns (m: nat, i: nat, pts: int)
    requires IsRun(states, steps, threads) && n < |states| && states[n].register != 0
    ensures m < n && steps[m] == Load(i, pts) && states[n].register == if pts < 1 then 1 else pts
  {
    var at := ExchangeReturnsARequest(states, steps, threads, n);
    match steps[at] {
      case Load(t, asked) => m, i, pts := at, t, asked;
      case SwapOk(t) =>
        i := t;
        m, pts := TryingWasAsked(states, steps, threads, at, t);
      case SwapFails(t) =>
        i := t;
        m, pts := TryingWasAsked(states, steps, threads, at, t);
    }
  }
}
