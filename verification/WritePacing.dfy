/** The writer's rate limiter, over the reals: an I/O request may have to sleep until its
    share of the rate has passed, with a bounded burst saved up while idle. */
module WritePacing {

  /** One I/O of `bytes` at `rate` bytes a second (zero: no limit), arriving at `now`;
      `sleepExtra` is how much later than asked the thread wakes, if it sleeps. */
  datatype Request = Request(now: real, bytes: nat, rate: nat, sleepExtra: real)

  /** A request in units of time: what it costs, and what a saved burst is worth to it. */
  datatype Charge = Charge(now: real, limited: bool, cost: real, credit: real, sleepExtra: real)

  datatype Pacer = Pacer(started: bool, next: real)

  function MaxReal(a: real, b: real): real {
    if a >= b then a else b
  }

  /** The time `bytes` take at `rate`. */
  function Share(bytes: nat, rate: nat): real
    requires rate > 0
  {
    bytes as real / rate as real
  }

  function ChargeOf(r: Request, burst: nat): Charge {
    if r.rate > 0 && r.bytes > 0 then
      Charge(r.now, true, Share(r.bytes, r.rate), Share(burst, r.rate), r.sleepExtra)
    else
      Charge(r.now, false, 0.0, 0.0, r.sleepExtra)
  }

  function Paced(p: Pacer, c: Charge): Pacer {
    if !c.limited then p
    else
      var earliest := c.now - c.credit;
      Pacer(true, (if p.started then MaxReal(p.next, earliest) else earliest) + c.cost)
  }

  /** When the request may go ahead. */
  function Finish(p: Pacer, c: Charge): real {
    var next := Paced(p, c).next;
    if c.limited && next > c.now then next + c.sleepExtra else c.now
  }

  class WritePacer {
    const burstBytes: nat
    var started: bool
    var next: real

    function State(): Pacer
      reads this
    {
      Pacer(started, next)
    }

    constructor (burstBytes: nat)
      ensures this.burstBytes == burstBytes && State() == Pacer(false, 0.0)
    {
      this.burstBytes, started, next := burstBytes, false, 0.0;
    }

    method PaceToTarget(r: Request) returns (finish: real)
      modifies this`started, this`next
      ensures State() == Paced(old(State()), ChargeOf(r, burstBytes))
      ensures finish == Finish(old(State()), ChargeOf(r, burstBytes))
    {
      if r.rate == 0 || r.bytes == 0 { return r.now; }
      var burstDuration := burstBytes as real / r.rate as real;
      var writeDuration := r.bytes as real / r.rate as real;
      if !started {
        next, started := r.now - burstDuration, true;
      } else {
        next := MaxReal(next, r.now - burstDuration);
      }
      next := next + writeDuration;
      if next <= r.now { return r.now; }
      finish := next + r.sleepExtra;
    }
  }

  // -------------------------------------------------------------- whole runs

  ghost predicate Proper(c: Charge) {
    c.cost >= 0.0 && c.credit >= 0.0 && c.sleepExtra >= 0.0
  }

  /** A run: the pacer before each request and after the last. One thread issues the
      requests, each after the one before it went ahead. */
  ghost predicate IsRun(clocks: seq<Pacer>, charges: seq<Charge>) {
    && |clocks| == |charges| + 1
    && (forall k :: 0 <= k < |charges| ==> clocks[k + 1] == Paced(clocks[k], charges[k]) && Proper(charges[k]))
    && (forall k :: 0 < k < |charges| ==> charges[k].now >= Finish(clocks[k - 1], charges[k - 1]))
  }

  /** The cost of requests `i` to `j`, both included. */
  function CostBetween(charges: seq<Charge>, i: nat, j: nat): real
    requires j < |charges|
    decreases j
  {
    if j < i then 0.0
    else if j == i then charges[j].cost
    else CostBetween(charges, i, j - 1) + charges[j].cost
  }

  lemma StepAdvances(p: Pacer, c: Charge)
    requires p.started && Proper(c) && c.now >= p.next && (c.limited || c.cost == 0.0)
    ensures Paced(p, c).started && Paced(p, c).next >= p.next + c.cost
    ensures Finish(p, c) >= Paced(p, c).next
  {
  }

  /** After a limited request, the clock moves by at least the cost of every later one, and
      no request goes ahead before its clock. */
  lemma {:induction false} ClockCoversCost(clocks: seq<Pacer>, charges: seq<Charge>, i: nat, j: nat)
    requires IsRun(clocks, charges) && i <= j < |charges| && charges[i].limited
    requires forall k :: i <= k <= j ==> charges[k].limited || charges[k].cost == 0.0
    ensures clocks[j + 1].started
    ensures clocks[j + 1].next >= charges[i].now - charges[i].credit + CostBetween(charges, i, j)
    ensures Finish(clocks[j], charges[j]) >= clocks[j + 1].next
    decreases j
  {
    assert clocks[j + 1] == Paced(clocks[j], charges[j]);
    if i < j {
      ClockCoversCost(clocks, charges, i, j - 1);
      assert charges[j].now >= Finish(clocks[j - 1], charges[j - 1]);
      StepAdvances(clocks[j], charges[j]);
    }
  }

  ghost predicate ChargesFor(requests: seq<Request>, burst: nat, charges: seq<Charge>) {
    |charges| == |requests| && forall k :: 0 <= k < |requests| ==> charges[k] == ChargeOf(requests[k], burst)
  }

  /** The bound: between the moment a request arrives and the moment a later one goes ahead,
      the writer may spend that time plus the first request's burst, at whatever rates. */
  lemma {:induction false} PacingBound(clocks: seq<Pacer>, requests: seq<Request>, burst: nat, charges: seq<Charge>, i: nat, j: nat)
    requires ChargesFor(requests, burst, charges) && IsRun(clocks, charges)
    requires i <= j < |charges| && charges[i].limited
    ensures CostBetween(charges, i, j) <= Finish(clocks[j], charges[j]) - charges[i].now + charges[i].credit
  {
    ClockCoversCost(clocks, charges, i, j);
  }

  function BytesBetween(requests: seq<Request>, i: nat, j: nat): nat
    requires j < |requests|
    decreases j
  {
    if j < i then 0
    else if j == i then requests[j].bytes
    else BytesBetween(requests, i, j - 1) + requests[j].bytes
  }

  lemma {:induction false} ShareAdds(a: nat, b: nat, rate: nat)
    requires rate > 0
    ensures Share(a, rate) + Share(b, rate) == Share(a + b, rate)
  {
  }

  lemma ShareOfNothing(rate: nat)
    requires rate > 0
    ensures Share(0, rate) == 0.0
  {
  }

  lemma CostIsShare(r: Request, burst: nat)
    requires r.rate > 0
    ensures ChargeOf(r, burst).cost == Share(r.bytes, r.rate)
  {
    if r.bytes == 0 {
      ShareOfNothing(r.rate);
    }
  }

  lemma {:induction false} CostAtConstantRate(
    requests: seq<Request>, burst: nat, charges: seq<Charge>, rate: nat, i: nat, j: nat)
    requires ChargesFor(requests, burst, charges) && rate > 0 && i <= j < |requests|
    requires forall k :: i <= k <= j ==> requests[k].rate == rate
    ensures CostBetween(charges, i, j) == Share(BytesBetween(requests, i, j), rate)
    decreases j
  {
    CostIsShare(requests[j], burst);
    if i < j {
      CostAtConstantRate(requests, burst, charges, rate, i, j - 1);
      ShareAdds(BytesBetween(requests, i, j - 1), requests[j].bytes, rate);
    }
  }

  /** The most bytes a window of this length may see. */
  function Allowance(rate: nat, length: real, burst: nat): real {
    rate as real * length + burst as real
  }

  lemma SameSign(d: real, rate: real)
    requires rate > 0.0
    ensures d >= 0.0 <==> d * rate >= 0.0
  {
  }

  /** Shares of time compare as the bytes do. */
  lemma {:induction false} ShareBound(bytes: nat, burst: nat, length: real, rate: nat)
    requires rate > 0
    ensures Share(bytes, rate) <= length + Share(burst, rate) <==> bytes as real <= Allowance(rate, length, burst)
  {
    var r := rate as real;
    assert bytes as real == Share(bytes, rate) * r && burst as real == Share(burst, rate) * r;
    SameSign(length + Share(burst, rate) - Share(bytes, rate), r);
  }

  /** At a constant rate: bytes written in a window never exceed the rate times its length
      plus one burst, however long the writer idled before or inside it. */
  lemma {:induction false} ConstantRateBound(
    clocks: seq<Pacer>, requests: seq<Request>, burst: nat, charges: seq<Charge>, rate: nat, i: nat, j: nat)
    requires ChargesFor(requests, burst, charges) && IsRun(clocks, charges)
    requires i <= j < |charges| && requests[i].bytes > 0
    requires rate > 0 && forall k :: i <= k <= j ==> requests[k].rate == rate
    ensures BytesBetween(requests, i, j) as real
         <= Allowance(rate, Finish(clocks[j], charges[j]) - requests[i].now, burst)
  {
    PacingBound(clocks, requests, burst, charges, i, j);
    CostAtConstantRate(requests, burst, charges, rate, i, j);
    ShareBound(BytesBetween(requests, i, j), burst, Finish(clocks[j], charges[j]) - requests[i].now, rate);
  }

  // -------------------------------------------------------------------- promptness

  /** Where the clock would stand if it had last been set by request `i`. */
  function SetBy(charges: seq<Charge>, i: nat, j: nat): real
    requires i <= j < |charges|
  {
    charges[i].now - charges[i].credit + CostBetween(charges, i, j)
  }

  lemma SetByLater(charges: seq<Charge>, i: nat, j: nat)
    requires i < j < |charges|
    ensures SetBy(charges, i, j) == SetBy(charges, i, j - 1) + charges[j].cost
  {
  }

  /** The clock after request `j` stands where some limited request last set it, and no earlier
      than any of them would. */
  lemma {:induction false} ClockIsLatest(clocks: seq<Pacer>, charges: seq<Charge>, j: nat) returns (i: nat)
    requires IsRun(clocks, charges) && !clocks[0].started && j < |charges|
    requires forall k :: 0 <= k < |charges| ==> charges[k].limited || charges[k].cost == 0.0
    ensures clocks[j + 1].started <==> exists k :: 0 <= k <= j && charges[k].limited
    ensures clocks[j + 1].started ==>
              && i <= j && charges[i].limited && clocks[j + 1].next == SetBy(charges, i, j)
              && forall k :: 0 <= k <= j && charges[k].limited ==> clocks[j + 1].next >= SetBy(charges, k, j)
    decreases j
  {
    assert clocks[j + 1] == Paced(clocks[j], charges[j]);
    assert SetBy(charges, j, j) == charges[j].now - charges[j].credit + charges[j].cost;
    i := j;
    if j > 0 {
      var before := ClockIsLatest(clocks, charges, j - 1);
      forall k | 0 <= k < j
        ensures SetBy(charges, k, j) == SetBy(charges, k, j - 1) + charges[j].cost
      {
        SetByLater(charges, k, j);
      }
      if clocks[j].started && (!charges[j].limited || clocks[j].next >= charges[j].now - charges[j].credit) {
        i := before;
      }
    }
  }

  /** A request goes ahead at once exactly when, since every earlier limited request and itself,
      no more was asked for than the time passed and that request's burst allow. */
  lemma {:induction false} PromptUnlessOverBudget(clocks: seq<Pacer>, charges: seq<Charge>, j: nat)
    requires IsRun(clocks, charges) && !clocks[0].started && j < |charges| && charges[j].limited
    requires forall k :: 0 <= k < |charges| ==> charges[k].limited || charges[k].cost == 0.0
    ensures Finish(clocks[j], charges[j]) == charges[j].now
            <==> forall i :: 0 <= i <= j && charges[i].limited ==>
                   CostBetween(charges, i, j) <= charges[j].now - charges[i].now + charges[i].credit
  {
    var latest := ClockIsLatest(clocks, charges, j);
    assert clocks[j + 1] == Paced(clocks[j], charges[j]);
    assert forall i :: 0 <= i <= j && charges[i].limited ==>
        (SetBy(charges, i, j) <= charges[j].now
         <==> CostBetween(charges, i, j) <= charges[j].now - charges[i].now + charges[i].credit);
  }

  /** At a constant rate: a request goes ahead at once exactly when the bytes asked for since
      every earlier request fit the rate times the time passed and one burst. */
  lemma {:induction false} PromptWithinRate(
    clocks: seq<Pacer>, requests: seq<Request>, burst: nat, charges: seq<Charge>, rate: nat, j: nat)
    requires ChargesFor(requests, burst, charges) && IsRun(clocks, charges) && !clocks[0].started && j < |charges|
    requires rate > 0 && forall k :: 0 <= k < |requests| ==> requests[k].rate == rate && requests[k].bytes > 0
    ensures Finish(clocks[j], charges[j]) == requests[j].now
            <==> forall i :: 0 <= i <= j ==>
                   BytesBetween(requests, i, j) as real <= Allowance(rate, requests[j].now - requests[i].now, burst)
  {
    PromptUnlessOverBudget(clocks, charges, j);
    forall i | 0 <= i <= j
      ensures CostBetween(charges, i, j) <= charges[j].now - charges[i].now + charges[i].credit
              <==> BytesBetween(requests, i, j) as real
                   <= Allowance(rate, requests[j].now - requests[i].now, burst)
    {
      CostAtConstantRate(requests, burst, charges, rate, i, j);
      var bytes, length := BytesBetween(requests, i, j), requests[j].now - requests[i].now;
      ShareBound(bytes, burst, length, rate);
    }
  }

  /** A delayed request goes ahead as soon as the windows from all earlier requests allow it, and
      however much later its thread wakes. */
  lemma {:induction false} DelayedNoLonger(clocks: seq<Pacer>, charges: seq<Charge>, j: nat) returns (i: nat)
    requires IsRun(clocks, charges) && !clocks[0].started && j < |charges| && charges[j].limited
    requires forall k :: 0 <= k < |charges| ==> charges[k].limited || charges[k].cost == 0.0
    requires Finish(clocks[j], charges[j]) != charges[j].now
    ensures i <= j && charges[i].limited
    ensures Finish(clocks[j], charges[j])
         == charges[i].now - charges[i].credit + CostBetween(charges, i, j) + charges[j].sleepExtra
  {
    i := ClockIsLatest(clocks, charges, j);
    assert clocks[j + 1] == Paced(clocks[j], charges[j]);
  }
}
