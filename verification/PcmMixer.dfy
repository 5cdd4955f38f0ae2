/** Mixing the PCM packets of a clip: a sweep over inputs sorted by start, one chunk at a time
    in a reused scratch buffer, with a limiter per chunk. A row holds one frame's channels. */
module PcmMixer {
  import opened Basics
  import opened Arithmetic

  const UNITS: int := 10_000_000
  const PEAK: int := 32_767

  type Row = seq<int>

  /** A packet's payload is read once for each chunk it overlaps; `lost` are the numbers of
      the chunks whose read fails. */
  datatype Packet = Packet(pts: int, rate: nat, channels: nat, audible: bool, rows: seq<Row>, lost: set<nat>)

  /** A packet placed on the clip's frame timeline; `lost` are the frames that cannot be read,
      which stay silent. */
  datatype Input = Input(start: int, rows: seq<Row>, lost: set<int>)

  function End(input: Input): int {
    input.start + |input.rows|
  }

  /** Division that rounds toward zero, for packets that begin before the clip. */
  function TruncatingDiv(a: int, b: int): int
    requires b > 0
  {
    if a >= 0 then a / b else -(-a / b)
  }

  function FrameOf(offset: int, rate: int): int {
    TruncatingDiv(offset * rate, UNITS)
  }

  /** What an input contributes to frame `t`. */
  function At(input: Input, t: int, ch: nat): int {
    if t !in input.lost && input.start <= t < End(input) && ch < |input.rows[t - input.start]|
    then input.rows[t - input.start][ch]
    else 0
  }

  /** The mix of all inputs at a frame and channel. */
  function CoverSum(inputs: seq<Input>, t: int, ch: nat): int {
    if inputs == [] then 0
    else CoverSum(inputs[..|inputs| - 1], t, ch) + At(inputs[|inputs| - 1], t, ch)
  }

  /** The mix at row `j` of the chunk that begins at `offset`. */
  function MixAt(inputs: seq<Input>, offset: int, j: int, ch: int): int
    requires ch >= 0
  {
    CoverSum(inputs, offset + j, ch)
  }

  // --------------------------------------------------------- order does not matter

  lemma {:induction false} CoverSumAppend(a: seq<Input>, b: seq<Input>, t: int, ch: nat)
    ensures CoverSum(a + b, t, ch) == CoverSum(a, t, ch) + CoverSum(b, t, ch)
    decreases |b|
  {
    if b == [] {
      assert a + b == a;
    } else {
      assert (a + b)[..|a + b| - 1] == a + b[..|b| - 1];
      CoverSumAppend(a, b[..|b| - 1], t, ch);
    }
  }

  lemma CoverSumWithout(inputs: seq<Input>, i: nat, t: int, ch: nat)
    requires i < |inputs|
    ensures CoverSum(inputs, t, ch) == CoverSum(inputs[..i] + inputs[i + 1..], t, ch) + At(inputs[i], t, ch)
  {
    CoverSumAppend(inputs[..i + 1], inputs[i + 1..], t, ch);
    CoverSumAppend(inputs[..i], inputs[i + 1..], t, ch);
    assert inputs[..i + 1] + inputs[i + 1..] == inputs;
    assert inputs[..i + 1][..i] == inputs[..i];
  }

  lemma InsertOne<T>(all: seq<T>, front: seq<T>, x: T, back: seq<T>)
    requires all == front + [x] + back
    ensures multiset(all) == multiset(front + back) + multiset{x}
  {
    assert multiset(front + [x]) == multiset(front) + multiset{x};
  }

  lemma CancelOne<T>(m: multiset<T>, n: multiset<T>, x: T)
    requires m + multiset{x} == n + multiset{x}
    ensures m == n
  {
    assert m == (m + multiset{x}) - multiset{x};
    assert n == (n + multiset{x}) - multiset{x};
  }

  lemma MatchLast<T>(a: seq<T>, b: seq<T>) returns (i: nat)
    requires a != [] && multiset(a) == multiset(b)
    ensures i < |b| && b[i] == a[|a| - 1]
    ensures multiset(a[..|a| - 1]) == multiset(b[..i] + b[i + 1..])
  {
    var last, front := a[|a| - 1], a[..|a| - 1];
    assert last in multiset(b) by {
      assert last in multiset(a);
    }
    i :| 0 <= i < |b| && b[i] == last;
    InsertOne(a, front, last, []);
    assert front + [] == front && a == front + [last] + [];
    InsertOne(b, b[..i], last, b[i + 1..]);
    CancelOne(multiset(front), multiset(b[..i] + b[i + 1..]), last);
  }

  lemma EmptyMatch<T>(b: seq<T>)
    requires multiset(b) == multiset([])
    ensures b == []
  {
    assert |multiset(b)| == |b|;
  }

  /** The mix is the same whatever order the inputs are in. */
  lemma {:induction false} MixIgnoresOrder(a: seq<Input>, b: seq<Input>, t: int, ch: nat)
    requires multiset(a) == multiset(b)
    ensures CoverSum(a, t, ch) == CoverSum(b, t, ch)
    decreases |a|
  {
    if a == [] {
      EmptyMatch(b);
    } else {
      var i := MatchLast(a, b);
      MixIgnoresOrder(a[..|a| - 1], b[..i] + b[i + 1..], t, ch);
      CoverSumWithout(b, i, t, ch);
    }
  }

  ghost predicate Sorted(inputs: seq<Input>) {
    forall i, j :: 0 <= i < j < |inputs| ==> inputs[i].start <= inputs[j].start
  }

  lemma InsertKeepsSorted(sorted: seq<Input>, at: nat, input: Input, all: seq<Input>)
    requires Sorted(sorted) && at <= |sorted|
    requires at > 0 ==> sorted[at - 1].start <= input.start
    requires forall k :: at <= k < |sorted| ==> sorted[k].start > input.start
    requires all == sorted[..at] + [input] + sorted[at..]
    ensures Sorted(all)
  {
    forall i, j | 0 <= i < j < |all|
      ensures all[i].start <= all[j].start
    {
      assert i < at ==> all[i] == sorted[i] && sorted[i].start <= sorted[at - 1].start;
      assert j > at ==> all[j] == sorted[j - 1];
    }
  }

  lemma InsertKeepsAll(sorted: seq<Input>, at: nat, input: Input, all: seq<Input>)
    requires at <= |sorted| && all == sorted[..at] + [input] + sorted[at..]
    ensures multiset(all) == multiset(sorted) + multiset{input}
  {
    assert sorted == sorted[..at] + sorted[at..];
    InsertOne(all, sorted[..at], input, sorted[at..]);
  }

  method Insert(sorted: seq<Input>, input: Input) returns (all: seq<Input>)
    requires Sorted(sorted)
    ensures Sorted(all) && multiset(all) == multiset(sorted) + multiset{input}
  {
    var at: nat := |sorted|;
    while at > 0 && sorted[at - 1].start > input.start
      invariant at <= |sorted|
      invariant forall k :: at <= k < |sorted| ==> sorted[k].start > input.start
    {
      at := at - 1;
    }
    all := sorted[..at] + [input] + sorted[at..];
    InsertKeepsSorted(sorted, at, input, all);
    InsertKeepsAll(sorted, at, input, all);
  }

  // Any sort by start will do; equal starts may come in any order.
  method SortInputs(inputs: seq<Input>) returns (sorted: seq<Input>)
    ensures Sorted(sorted) && multiset(sorted) == multiset(inputs)
  {
    sorted := [];
    for n := 0 to |inputs|
      invariant Sorted(sorted) && multiset(sorted) == multiset(inputs[..n])
    {
      assert inputs[..n + 1] == inputs[..n] + [inputs[n]];
      sorted := Insert(sorted, inputs[n]);
    }
    assert inputs[..|inputs|] == inputs;
  }

  // -------------------------------------------------------------- the sweep's limits

  lemma {:induction false} EndedInputsAreSilent(inputs: seq<Input>, n: nat, t: int, ch: nat)
    requires n <= |inputs| && forall k :: 0 <= k < n ==> End(inputs[k]) <= t
    ensures CoverSum(inputs[..n], t, ch) == 0
  {
    if n > 0 {
      assert inputs[..n][..n - 1] == inputs[..n - 1];
      EndedInputsAreSilent(inputs, n - 1, t, ch);
    }
  }

  lemma {:induction false} LaterInputsAreSilent(inputs: seq<Input>, n: nat, t: int, ch: nat)
    requires n <= |inputs| && forall k :: n <= k < |inputs| ==> t < inputs[k].start
    ensures CoverSum(inputs, t, ch) == CoverSum(inputs[..n], t, ch)
    decreases |inputs|
  {
    if n < |inputs| {
      var front := inputs[..|inputs| - 1];
      LaterInputsAreSilent(front, n, t, ch);
      assert front[..n] == inputs[..n];
    } else {
      assert inputs[..n] == inputs;
    }
  }

  /** Every row of every input has the mix's channels. */
  ghost predicate WellFormed(inputs: seq<Input>, channels: nat) {
    forall i, r :: 0 <= i < |inputs| && 0 <= r < |inputs[i].rows| ==> |inputs[i].rows[r]| == channels
  }

  /** A read fails for all of its frames or for none. */
  ghost predicate Uniform(input: Input, offset: int, frames: nat) {
    forall t, u | Max(offset, input.start) <= t <= u < Min(offset + frames, End(input)) ::
      t in input.lost <==> u in input.lost
  }

  // Adds one input's share of the chunk, unless it cannot be read.
  method MixInto(scratch: array2<int>, input: Input, offset: int, frames: nat)
    requires frames <= scratch.Length0
    requires forall r :: 0 <= r < |input.rows| ==> |input.rows[r]| == scratch.Length1
    requires Uniform(input, offset, frames)
    modifies scratch
    ensures forall j, ch :: 0 <= j < frames && 0 <= ch < scratch.Length1 ==>
              scratch[j, ch] == old(scratch[j, ch]) + At(input, offset + j, ch)
  {
    var from, to := Max(offset, input.start), Min(offset + frames, End(input));
    if to <= from || from in input.lost { return; }
    var t := from;
    while t < to
      invariant from <= t <= to
      invariant forall j, ch :: 0 <= j < frames && 0 <= ch < scratch.Length1 ==>
                  scratch[j, ch] == old(scratch[j, ch])
                                    + if from <= offset + j < t then At(input, offset + j, ch) else 0
    {
      var ch := 0;
      while ch < scratch.Length1
        invariant 0 <= ch <= scratch.Length1
        invariant forall j, c :: 0 <= j < frames && 0 <= c < scratch.Length1 ==>
                    scratch[j, c] == old(scratch[j, c])
                                     + if from <= offset + j < t || (offset + j == t && c < ch)
                                       then At(input, offset + j, c) else 0
      {
        scratch[t - offset, ch] := scratch[t - offset, ch] + input.rows[t - input.start][ch];
        ch := ch + 1;
      }
      t := t + 1;
    }
  }

  // Fills the scratch buffer with the mix of one chunk; inputs before `first` have ended.
  method MixChunk(scratch: array2<int>, inputs: seq<Input>, first: nat, offset: int, frames: nat)
    requires frames <= scratch.Length0 && first <= |inputs|
    requires Sorted(inputs) && WellFormed(inputs, scratch.Length1)
    requires forall k :: 0 <= k < first ==> End(inputs[k]) <= offset
    requires forall k :: 0 <= k < |inputs| ==> Uniform(inputs[k], offset, frames)
    modifies scratch
    ensures forall j, ch :: 0 <= j < frames && 0 <= ch < scratch.Length1 ==>
              scratch[j, ch] == MixAt(inputs, offset, j, ch)
  {
    Clear(scratch, frames);
    forall j, ch | 0 <= j < frames && 0 <= ch < scratch.Length1
      ensures MixAt(inputs[..first], offset, j, ch) == 0
    {
      EndedInputsAreSilent(inputs, first, offset + j, ch);
    }
    var i := first;
    while i < |inputs| && inputs[i].start < offset + frames
      invariant first <= i <= |inputs|
      invariant forall j, ch :: 0 <= j < frames && 0 <= ch < scratch.Length1 ==>
                  scratch[j, ch] == MixAt(inputs[..i], offset, j, ch)
    {
      assert inputs[..i + 1][..i] == inputs[..i];
      assert forall j, ch {:trigger MixAt(inputs[..i + 1], offset, j, ch)} :: 0 <= j && 0 <= ch ==>
          MixAt(inputs[..i + 1], offset, j, ch) == MixAt(inputs[..i], offset, j, ch) + At(inputs[i], offset + j, ch);
      MixInto(scratch, inputs[i], offset, frames);
      i := i + 1;
    }
    forall j, ch | 0 <= j < frames && 0 <= ch < scratch.Length1
      ensures MixAt(inputs, offset, j, ch) == MixAt(inputs[..i], offset, j, ch)
    {
      LaterInputsAreSilent(inputs, i, offset + j, ch);
    }
  }

  method Clear(scratch: array2<int>, frames: nat)
    requires frames <= scratch.Length0
    modifies scratch
    ensures forall j, ch :: 0 <= j < frames && 0 <= ch < scratch.Length1 ==> scratch[j, ch] == 0
  {
    for j := 0 to frames
      invariant forall k, ch :: 0 <= k < j && 0 <= ch < scratch.Length1 ==> scratch[k, ch] == 0
    {
      for ch := 0 to scratch.Length1
        invariant forall k, c :: 0 <= k < j && 0 <= c < scratch.Length1 ==> scratch[k, c] == 0
        invariant forall c :: 0 <= c < ch ==> scratch[j, c] == 0
      {
        scratch[j, ch] := 0;
      }
    }
  }

  // ------------------------------------------------------------------ the limiter

  function Abs(x: int): nat {
    if x < 0 then -x else x
  }

  function Gain(peak: nat): real {
    if peak > PEAK then PEAK as real / peak as real else 1.0
  }

  /** The cast to an integer drops the fraction. */
  function Truncated(x: real): int {
    if x >= 0.0 then x.Floor else -((-x).Floor)
  }

  function Clamped(x: real): real {
    if x < -32_768.0 then -32_768.0 else if x > 32_767.0 then 32_767.0 else x
  }

  function Limited(sum: int, peak: nat): int {
    Truncated(Clamped(sum as real * Gain(peak)))
  }

  /** The gain scales the peak down to full scale, or leaves it. */
  lemma GainOfPeak(peak: nat)
    ensures peak > PEAK ==> Gain(peak) * peak as real == 32_767.0 && 0.0 < Gain(peak)
    ensures peak <= PEAK ==> Gain(peak) == 1.0
  {
  }

  lemma RealOrder(a: real, b: real, d: real)
    requires d > 0.0
    ensures (a <= b <==> a * d <= b * d) && (a < b <==> a * d < b * d)
  {
  }

  lemma Negated(a: real, b: real)
    ensures (-a) * b == -(a * b)
  {
  }

  lemma Exchanged(a: real, g: real, d: real)
    ensures a * g * d == a * (g * d)
  {
  }

  /** What the limiter makes of a sum, in integers: nothing if the chunk is quiet; else the sum
      scaled by 32767 / peak, the fraction dropped, with its sign. */
  predicate IsLimited(r: int, sum: int, peak: nat) {
    if peak <= 32_767 then r == sum
    else (sum >= 0 ==> r >= 0) && (sum <= 0 ==> r <= 0) && IsShare(Abs(r), Abs(sum), peak)
  }

  /** `r` is `size` scaled by 32767 / peak, rounded down. */
  predicate IsShare(r: nat, size: nat, peak: nat) {
    r * peak <= size * 32_767 < (r + 1) * peak
  }

  lemma CastProduct(a: int, b: int)
    ensures a as real * b as real == (a * b) as real
  {
  }

  lemma FloorIsShare(r: nat, scaled: real, size: nat, peak: nat)
    requires peak > 0 && r as real <= scaled < (r + 1) as real
    requires scaled * peak as real == (size * 32_767) as real
    ensures IsShare(r, size, peak)
  {
    RealOrder(r as real, scaled, peak as real);
    RealOrder(scaled, (r + 1) as real, peak as real);
    CastProduct(r, peak);
    CastProduct(r + 1, peak);
  }

  lemma ScaledInRange(scaled: real, size: nat, peak: nat)
    requires size <= peak && peak > 0 && scaled * peak as real == (size * 32_767) as real
    ensures 0.0 <= scaled <= 32_767.0
  {
    CastProduct(32_767, peak);
    RealOrder(scaled, 32_767.0, peak as real);
    RealOrder(0.0, scaled, peak as real);
  }

  /** A size no greater than the peak stays in range, and its scaled form is its share. */
  lemma ScaledDown(size: nat, peak: nat, gain: real)
    requires size <= peak && peak > PEAK && gain * peak as real == 32_767.0
    ensures 0.0 <= size as real * gain <= 32_767.0
    ensures (size as real * gain).Floor >= 0 && IsShare((size as real * gain).Floor, size, peak)
  {
    var scaled := size as real * gain;
    Exchanged(size as real, gain, peak as real);
    CastProduct(size, 32_767);
    ScaledInRange(scaled, size, peak);
    FloorIsShare(scaled.Floor, scaled, size, peak);
  }

  lemma TruncatedSize(x: real, size: real, negative: bool)
    requires 0.0 <= size <= 32_767.0 && x == if negative then -size else size
    ensures Clamped(x) == x
    ensures Truncated(x) == if negative then 0 - size.Floor else size.Floor
  {
  }

  lemma SignedScale(r: nat, out: int, sum: int, peak: nat)
    requires peak > PEAK && out == (if sum < 0 then 0 - r else r) && IsShare(r, Abs(sum), peak)
    ensures IsLimited(out, sum, peak)
  {
    assert Abs(out) == r;
    if sum == 0 && r > 0 {
      MulMonotone(1, r, peak);
    }
  }

  lemma LoudIsScaled(sum: int, peak: nat, gain: real, x: real)
    requires Abs(sum) <= peak && peak > PEAK && gain * peak as real == 32_767.0 && x == sum as real * gain
    ensures Clamped(x) == x && IsLimited(Truncated(x), sum, peak)
  {
    var size := Abs(sum) as real * gain;
    ScaledDown(Abs(sum), peak, gain);
    if sum < 0 {
      assert sum as real == -(Abs(sum) as real);
      Negated(Abs(sum) as real, gain);
    }
    TruncatedSize(x, size, sum < 0);
    SignedScale(size.Floor, Truncated(x), sum, peak);
  }

  /** Over the reals the limiter never lets the clamp act. */
  lemma LimiterNeverClips(sum: int, peak: nat)
    requires Abs(sum) <= peak
    ensures Clamped(sum as real * Gain(peak)) == sum as real * Gain(peak)
    ensures IsLimited(Limited(sum, peak), sum, peak)
  {
    GainOfPeak(peak);
    if peak > PEAK {
      LoudIsScaled(sum, peak, Gain(peak), sum as real * Gain(peak));
    }
  }

  /** The loudest sample of a loud chunk comes out at full scale, and none beyond it. */
  lemma LoudestIsFullScale(r: int, sum: int, peak: nat)
    requires Abs(sum) <= peak && IsLimited(r, sum, peak)
    ensures -32_767 <= r <= 32_767
    ensures peak > 32_767 && Abs(sum) == peak ==> r == if sum > 0 then 32_767 else -32_767
  {
    if peak > 32_767 {
      MulMonotone(Abs(sum), peak, 32_767);
      if Abs(r) > 32_767 {
        MulMonotone(32_768, Abs(r), peak);
      }
      if Abs(sum) == peak {
        CancelLess(32_767, Abs(r) + 1, peak);
      }
    }
  }

  // ------------------------------------------------------------------- the mixer

  /** One output packet: its first frame, the chunk's peak before limiting, and its rows. */
  datatype Chunk = Chunk(offset: nat, pts: int, peak: nat, rows: seq<Row>)

  /** The chunk is the limited mix of its frames. */
  ghost predicate IsMix(chunk: Chunk, inputs: seq<Input>, channels: nat) {
    && (forall j :: 0 <= j < |chunk.rows| ==> |chunk.rows[j]| == channels)
    && (forall j, ch :: 0 <= j < |chunk.rows| && 0 <= ch < channels ==>
          && Abs(MixAt(inputs, chunk.offset, j, ch)) <= chunk.peak
          && IsLimited(chunk.rows[j][ch], MixAt(inputs, chunk.offset, j, ch), chunk.peak))
    && (chunk.peak > 0 ==>
          exists j, ch :: && 0 <= j < |chunk.rows| && 0 <= ch < channels
                          && Abs(MixAt(inputs, chunk.offset, j, ch)) == chunk.peak)
  }

  /** The chunks follow each other without gap up to `total`. */
  ghost predicate Tiles(chunks: seq<Chunk>, total: nat, size: nat) {
    && (forall k :: 0 <= k < |chunks| ==>
          && chunks[k].offset == (if k == 0 then 0 else chunks[k - 1].offset + |chunks[k - 1].rows|)
          && 0 < |chunks[k].rows| <= size
          && (k < |chunks| - 1 ==> |chunks[k].rows| == size))
    && (if chunks == [] then total == 0
        else chunks[|chunks| - 1].offset + |chunks[|chunks| - 1].rows| == total)
  }

  method ScratchPeak(scratch: array2<int>, frames: nat) returns (peak: nat)
    requires frames <= scratch.Length0
    ensures forall j, ch :: 0 <= j < frames && 0 <= ch < scratch.Length1 ==> Abs(scratch[j, ch]) <= peak
    ensures peak > 0 ==>
              exists j, ch :: 0 <= j < frames && 0 <= ch < scratch.Length1 && Abs(scratch[j, ch]) == peak
  {
    peak := 0;
    for j := 0 to frames
      invariant forall k, c :: 0 <= k < j && 0 <= c < scratch.Length1 ==> Abs(scratch[k, c]) <= peak
      invariant peak > 0 ==>
                  exists k, c :: 0 <= k < frames && 0 <= c < scratch.Length1 && Abs(scratch[k, c]) == peak
    {
      for ch := 0 to scratch.Length1
        invariant forall k, c :: 0 <= k < j && 0 <= c < scratch.Length1 ==> Abs(scratch[k, c]) <= peak
        invariant forall c :: 0 <= c < ch ==> Abs(scratch[j, c]) <= peak
        invariant peak > 0 ==>
                    exists k, c :: 0 <= k < frames && 0 <= c < scratch.Length1 && Abs(scratch[k, c]) == peak
      {
        if Abs(scratch[j, ch]) > peak {
          peak := Abs(scratch[j, ch]);
        }
      }
    }
  }

  method LimitedRows(scratch: array2<int>, frames: nat, peak: nat) returns (rows: seq<Row>)
    requires frames <= scratch.Length0
    requires forall j, ch :: 0 <= j < frames && 0 <= ch < scratch.Length1 ==> Abs(scratch[j, ch]) <= peak
    ensures |rows| == frames
    ensures forall j :: 0 <= j < frames ==> |rows[j]| == scratch.Length1
    ensures forall j, ch :: 0 <= j < frames && 0 <= ch < scratch.Length1 ==>
              IsLimited(rows[j][ch], scratch[j, ch], peak)
  {
    rows := [];
    for j := 0 to frames
      invariant |rows| == j && forall k :: 0 <= k < j ==> |rows[k]| == scratch.Length1
      invariant forall k, c :: 0 <= k < j && 0 <= c < scratch.Length1 ==> IsLimited(rows[k][c], scratch[k, c], peak)
    {
      var row: Row := [];
      for ch := 0 to scratch.Length1
        invariant |row| == ch && forall c :: 0 <= c < ch ==> IsLimited(row[c], scratch[j, c], peak)
      {
        LimiterNeverClips(scratch[j, ch], peak);
        row := row + [Limited(scratch[j, ch], peak)];
      }
      rows := rows + [row];
    }
  }

  predicate Mixable(p: Packet, rate: nat, channels: nat) {
    p.rate == rate && p.channels == channels && p.audible && p.rows != []
  }

  /** The frames of one chunk. */
  predicate InChunk(t: int, chunk: nat, size: nat) {
    chunk * size <= t < chunk * size + size
  }

  predicate InSomeChunk(t: int, chunks: set<nat>, size: nat) {
    exists q <- chunks :: InChunk(t, q, size)
  }

  /** Ten milliseconds of frames. */
  function ChunkSize(rate: nat): (size: nat)
    ensures size >= 1 && (rate >= 100 ==> size * 100 <= rate < size * 100 + 100)
  {
    Max(1, rate / 100)
  }

  function PlacedOne(p: Packet, rate: nat, clipStart: int): Input {
    var start := FrameOf(p.pts - clipStart, rate);
    Input(start, p.rows,
          set t | start <= t < start + |p.rows| && InSomeChunk(t, p.lost, ChunkSize(rate)))
  }

  lemma OneChunkOnly(t: int, a: nat, b: nat, size: nat)
    requires InChunk(t, a, size) && InChunk(t, b, size)
    ensures a == b
  {
    DivisionIsUnique(t, a, size);
    DivisionIsUnique(t, b, size);
  }

  lemma PlacedIsUniform(p: Packet, rate: nat, clipStart: int, q: nat)
    ensures Uniform(PlacedOne(p, rate, clipStart), q * ChunkSize(rate), ChunkSize(rate))
  {
    var input, size := PlacedOne(p, rate, clipStart), ChunkSize(rate);
    forall t | Max(q * size, input.start) <= t < Min(q * size + size, End(input))
      ensures t in input.lost <==> q in p.lost
    {
      if t in input.lost {
        var other :| other in p.lost && InChunk(t, other, size);
        OneChunkOnly(t, other, q, size);
      } else {
        assert InChunk(t, q, size);
      }
    }
  }

  /** Every input is lost chunk by chunk. */
  ghost predicate LostByChunk(inputs: seq<Input>, size: nat) {
    forall k, q: nat :: 0 <= k < |inputs| ==> Uniform(inputs[k], ChunkStart(q, size), size)
  }

  function ChunkStart(q: nat, size: nat): nat {
    q * size
  }

  lemma {:induction false} PlacedAreLostByChunk(packets: seq<Packet>, rate: nat, channels: nat, clipStart: int)
    ensures LostByChunk(Placed(packets, rate, channels, clipStart), ChunkSize(rate))
  {
    if packets != [] {
      var n := |packets| - 1;
      PlacedAreLostByChunk(packets[..n], rate, channels, clipStart);
      forall q: nat
        ensures Uniform(PlacedOne(packets[n], rate, clipStart), ChunkStart(q, ChunkSize(rate)), ChunkSize(rate))
      {
        PlacedIsUniform(packets[n], rate, clipStart, q);
      }
    }
  }

  /** The packets that can be mixed together, placed on the clip's timeline. */
  function Placed(packets: seq<Packet>, rate: nat, channels: nat, clipStart: int): seq<Input> {
    if packets == [] then []
    else
      var p := packets[|packets| - 1];
      Placed(packets[..|packets| - 1], rate, channels, clipStart)
      + if Mixable(p, rate, channels) then [PlacedOne(p, rate, clipStart)] else []
  }

  predicate Touches(input: Input, total: int) {
    End(input) > 0 && input.start < total
  }

  function Touching(inputs: seq<Input>, total: int): seq<Input> {
    if inputs == [] then []
    else
      Touching(inputs[..|inputs| - 1], total)
      + if Touches(inputs[|inputs| - 1], total) then [inputs[|inputs| - 1]] else []
  }

  /** Inputs outside the clip add nothing to it. */
  lemma {:induction false} OutsideInputsAreSilent(inputs: seq<Input>, total: int, t: int, ch: nat)
    requires 0 <= t < total
    ensures CoverSum(Touching(inputs, total), t, ch) == CoverSum(inputs, t, ch)
  {
    if inputs != [] {
      var n := |inputs| - 1;
      OutsideInputsAreSilent(inputs[..n], total, t, ch);
      if Touches(inputs[n], total) {
        CoverSumAppend(Touching(inputs[..n], total), [inputs[n]], t, ch);
        assert [inputs[n]][..0] == [];
      } else {
        assert Touching(inputs[..n], total) + [] == Touching(inputs[..n], total);
      }
    }
  }

  lemma PlacedAppend(packets: seq<Packet>, n: nat, rate: nat, channels: nat, clipStart: int)
    requires n < |packets|
    ensures var before := Placed(packets[..n], rate, channels, clipStart);
            Placed(packets[..n + 1], rate, channels, clipStart)
            == if Mixable(packets[n], rate, channels) then before + [PlacedOne(packets[n], rate, clipStart)] else before
  {
    assert packets[..n + 1][..n] == packets[..n];
    assert Placed(packets[..n], rate, channels, clipStart) + [] == Placed(packets[..n], rate, channels, clipStart);
  }

  lemma TouchingAppend(inputs: seq<Input>, input: Input, total: int)
    ensures Touching(inputs + [input], total)
         == if Touches(input, total) then Touching(inputs, total) + [input] else Touching(inputs, total)
  {
    assert Touching(inputs, total) + [] == Touching(inputs, total);
    assert (inputs + [input])[..|inputs|] == inputs;
  }

  method SelectInputs(packets: seq<Packet>, rate: nat, channels: nat, clipStart: int, total: int)
    returns (inputs: seq<Input>)
    ensures inputs == Touching(Placed(packets, rate, channels, clipStart), total)
  {
    inputs := [];
    for n := 0 to |packets|
      invariant inputs == Touching(Placed(packets[..n], rate, channels, clipStart), total)
    {
      PlacedAppend(packets, n, rate, channels, clipStart);
      if !Mixable(packets[n], rate, channels) { continue; }
      var input := PlacedOne(packets[n], rate, clipStart);
      TouchingAppend(Placed(packets[..n], rate, channels, clipStart), input, total);
      if Touches(input, total) {
        inputs := inputs + [input];
      }
    }
    assert packets[..|packets|] == packets;
  }

  // Mixes one chunk into a packet.
  method MakeChunk(scratch: array2<int>, inputs: seq<Input>, first: nat, offset: nat, frames: nat, pts: int)
    returns (chunk: Chunk)
    requires frames <= scratch.Length0 && first <= |inputs|
    requires Sorted(inputs) && WellFormed(inputs, scratch.Length1)
    requires forall k :: 0 <= k < first ==> End(inputs[k]) <= offset
    requires forall k :: 0 <= k < |inputs| ==> Uniform(inputs[k], offset, frames)
    modifies scratch
    ensures IsMix(chunk, inputs, scratch.Length1)
    ensures chunk.offset == offset && |chunk.rows| == frames && chunk.pts == pts
  {
    MixChunk(scratch, inputs, first, offset, frames);
    var peak := ScratchPeak(scratch, frames);
    var rows := LimitedRows(scratch, frames, peak);
    chunk := Chunk(offset, pts, peak, rows);
  }

  function ChunkPts(clipStart: int, offset: nat, rate: nat): int
    requires rate > 0
  {
    clipStart + offset * UNITS / rate
  }

  // Passes the inputs that have ended; later inputs may have ended too.
  method SkipEnded(inputs: seq<Input>, from: nat, offset: int) returns (first: nat)
    requires from <= |inputs| && forall k :: 0 <= k < from ==> End(inputs[k]) <= offset
    ensures from <= first <= |inputs| && forall k :: 0 <= k < first ==> End(inputs[k]) <= offset
  {
    first := from;
    while first < |inputs| && End(inputs[first]) <= offset
      invariant from <= first <= |inputs|
      invariant forall k :: 0 <= k < first ==> End(inputs[k]) <= offset
    {
      first := first + 1;
    }
  }

  /** Every chunk is the limited mix of its frames, stamped with the time of its first one. */
  ghost predicate AreMixes(chunks: seq<Chunk>, inputs: seq<Input>, channels: nat, clipStart: int, rate: nat)
    requires rate > 0
  {
    forall k :: 0 <= k < |chunks| ==>
      IsMix(chunks[k], inputs, channels) && chunks[k].pts == ChunkPts(clipStart, chunks[k].offset, rate)
  }

  lemma TilesGrow(chunks: seq<Chunk>, offset: nat, size: nat, chunk: Chunk)
    requires Tiles(chunks, offset, size) && forall k :: 0 <= k < |chunks| ==> |chunks[k].rows| == size
    requires chunk.offset == offset && 0 < |chunk.rows| <= size
    ensures Tiles(chunks + [chunk], offset + |chunk.rows|, size)
  {
  }

  lemma MixesGrow(
    chunks: seq<Chunk>, chunk: Chunk, inputs: seq<Input>, channels: nat, clipStart: int, rate: nat)
    requires rate > 0 && AreMixes(chunks, inputs, channels, clipStart, rate)
    requires IsMix(chunk, inputs, channels) && chunk.pts == ChunkPts(clipStart, chunk.offset, rate)
    ensures AreMixes(chunks + [chunk], inputs, channels, clipStart, rate)
  {
  }

  lemma ChunkIsUniform(inputs: seq<Input>, q: nat, size: nat, frames: nat)
    requires LostByChunk(inputs, size) && frames <= size
    ensures forall k :: 0 <= k < |inputs| ==> Uniform(inputs[k], ChunkStart(q, size), frames)
    ensures ChunkStart(q + 1, size) == ChunkStart(q, size) + size
  {
    assert forall k :: 0 <= k < |inputs| ==> Uniform(inputs[k], ChunkStart(q, size), size);
  }

  /** The whole sweep: chunks tile the clip, and each is the limited mix of all its inputs. */
  method Sweep(inputs: seq<Input>, total: nat, size: nat, channels: nat, rate: nat, clipStart: int)
    returns (chunks: seq<Chunk>)
    requires size > 0 && rate > 0 && Sorted(inputs) && WellFormed(inputs, channels) && LostByChunk(inputs, size)
    ensures Tiles(chunks, total, size) && AreMixes(chunks, inputs, channels, clipStart, rate)
  {
    chunks := [];
    var scratch := new int[size, channels];
    var first, offset := 0, 0;
    while offset < total
      invariant offset <= total && Tiles(chunks, offset, size) && first <= |inputs|
      invariant offset < total ==> forall k :: 0 <= k < |chunks| ==> |chunks[k].rows| == size
      invariant offset < total ==> offset == ChunkStart(|chunks|, size)
      invariant forall k :: 0 <= k < first ==> End(inputs[k]) <= offset
      invariant AreMixes(chunks, inputs, channels, clipStart, rate)
    {
      var frames := Min(size, total - offset);
      first := SkipEnded(inputs, first, offset);
      ChunkIsUniform(inputs, |chunks|, size, frames);
      var chunk := MakeChunk(scratch, inputs, first, offset, frames, ChunkPts(clipStart, offset, rate));
      TilesGrow(chunks, offset, size, chunk);
      MixesGrow(chunks, chunk, inputs, channels, clipStart, rate);
      chunks := chunks + [chunk];
      offset := offset + frames;
    }
  }

  function FirstNonZero(values: seq<nat>): (r: nat)
    ensures r == 0 ==> forall i :: 0 <= i < |values| ==> values[i] == 0
    ensures r != 0 ==> exists i :: 0 <= i < |values| && values[i] == r && forall j :: 0 <= j < i ==> values[j] == 0
  {
    if values == [] then 0
    else if values[0] != 0 then values[0]
    else
      var r := FirstNonZero(values[1..]);
      assert forall i :: 1 <= i < |values| ==> values[i] == values[1..][i - 1];
      r
  }

  function Rates(packets: seq<Packet>): seq<nat> {
    seq(|packets|, i requires 0 <= i < |packets| => packets[i].rate)
  }

  function ChannelCounts(packets: seq<Packet>): seq<nat> {
    seq(|packets|, i requires 0 <= i < |packets| => packets[i].channels)
  }

  method FirstFormat(packets: seq<Packet>) returns (rate: nat, channels: nat)
    ensures rate == FirstNonZero(Rates(packets)) && channels == FirstNonZero(ChannelCounts(packets))
  {
    rate, channels := 0, 0;
    ghost var rates, counts := Rates(packets), ChannelCounts(packets);
    for n := 0 to |packets|
      invariant FirstNonZero(rates) == if rate != 0 then rate else FirstNonZero(rates[n..])
      invariant FirstNonZero(counts) == if channels != 0 then channels else FirstNonZero(counts[n..])
    {
      assert rates[n..] == [packets[n].rate] + rates[n + 1..];
      assert counts[n..] == [packets[n].channels] + counts[n + 1..];
      if rate == 0 { rate := packets[n].rate; }
      if channels == 0 { channels := packets[n].channels; }
    }
  }

  ghost predicate PacketsWellFormed(packets: seq<Packet>) {
    forall i, r :: 0 <= i < |packets| && 0 <= r < |packets[i].rows| ==> |packets[i].rows[r]| == packets[i].channels
  }

  lemma {:induction false} PlacedIsWellFormed(packets: seq<Packet>, rate: nat, channels: nat, clipStart: int)
    requires PacketsWellFormed(packets)
    ensures WellFormed(Placed(packets, rate, channels, clipStart), channels)
  {
    if packets != [] {
      PlacedIsWellFormed(packets[..|packets| - 1], rate, channels, clipStart);
    }
  }

  lemma {:induction false} TouchingComesFrom(inputs: seq<Input>, total: int)
    ensures forall input <- Touching(inputs, total) :: input in inputs
  {
    if inputs != [] {
      TouchingComesFrom(inputs[..|inputs| - 1], total);
    }
  }

  lemma SortedIsWellFormed(inputs: seq<Input>, total: int, sorted: seq<Input>, channels: nat, size: nat)
    requires WellFormed(inputs, channels) && LostByChunk(inputs, size)
    requires multiset(sorted) == multiset(Touching(inputs, total))
    ensures WellFormed(sorted, channels) && LostByChunk(sorted, size)
  {
    TouchingComesFrom(inputs, total);
    forall i | 0 <= i < |sorted|
      ensures sorted[i] in inputs
    {
      assert sorted[i] in multiset(sorted);
    }
  }

  /** The sorted sweep mixes what every mixable packet contributes, wherever it lies. */
  lemma SweepMixesEverything(inputs: seq<Input>, total: int, sorted: seq<Input>, t: int, ch: nat)
    requires multiset(sorted) == multiset(Touching(inputs, total)) && 0 <= t < total
    ensures CoverSum(sorted, t, ch) == CoverSum(inputs, t, ch)
  {
    MixIgnoresOrder(sorted, Touching(inputs, total), t, ch);
    OutsideInputsAreSilent(inputs, total, t, ch);
  }

  ghost predicate SameMix(a: seq<Input>, b: seq<Input>, offset: int, frames: nat, channels: nat) {
    forall j, ch :: 0 <= j < frames && 0 <= ch < channels ==> MixAt(a, offset, j, ch) == MixAt(b, offset, j, ch)
  }

  lemma SameMixIsMix(chunk: Chunk, a: seq<Input>, b: seq<Input>, channels: nat)
    requires IsMix(chunk, a, channels) && SameMix(a, b, chunk.offset, |chunk.rows|, channels)
    ensures IsMix(chunk, b, channels)
  {
    if chunk.peak > 0 {
      var j, ch :| && 0 <= j < |chunk.rows| && 0 <= ch < channels
                   && Abs(MixAt(a, chunk.offset, j, ch)) == chunk.peak;
      assert Abs(MixAt(b, chunk.offset, j, ch)) == chunk.peak;
    }
  }

  /** A chunk inside the clip that mixes the sorted inputs mixes every mixable packet. */
  lemma ChunkMixesEverything(chunk: Chunk, inputs: seq<Input>, total: int, sorted: seq<Input>, channels: nat)
    requires multiset(sorted) == multiset(Touching(inputs, total))
    requires chunk.offset + |chunk.rows| <= total && IsMix(chunk, sorted, channels)
    ensures IsMix(chunk, inputs, channels)
  {
    forall j, ch | 0 <= j < |chunk.rows| && 0 <= ch < channels
      ensures MixAt(sorted, chunk.offset, j, ch) == MixAt(inputs, chunk.offset, j, ch)
    {
      SweepMixesEverything(inputs, total, sorted, chunk.offset + j, ch);
    }
    SameMixIsMix(chunk, sorted, inputs, channels);
  }

  lemma {:induction false} TilesStayInside(chunks: seq<Chunk>, total: nat, size: nat, k: nat)
    requires Tiles(chunks, total, size) && k < |chunks|
    ensures chunks[k].offset + |chunks[k].rows| <= total
    decreases |chunks| - k
  {
    if k < |chunks| - 1 {
      TilesStayInside(chunks, total, size, k + 1);
      assert chunks[k + 1].offset == chunks[k].offset + |chunks[k].rows|;
    }
  }

  // ----------------------------------------------------- the mix by its packets

  /** A packet begins at the frame its stamp falls in, within one frame of the exact position:
      the next one down after the clip's start, the next one up before it. */
  lemma StartFrameIsNear(pts: int, clipStart: int, rate: nat)
    ensures var start, exact := FrameOf(pts - clipStart, rate), (pts - clipStart) * rate;
            && (pts >= clipStart ==> start * 10_000_000 <= exact < (start + 1) * 10_000_000)
            && (pts < clipStart ==> (start - 1) * 10_000_000 < exact <= start * 10_000_000)
  {
    var exact := (pts - clipStart) * rate;
    if pts >= clipStart {
      MulMonotone(0, pts - clipStart, rate);
      DivisionBounds(exact, UNITS);
    } else {
      MulMonotone(pts - clipStart, 0, rate);
      DivisionBounds(-exact, UNITS);
    }
  }

  /** A chunk is stamped with the time of its first frame, rounded down. */
  lemma ChunkStampIsNear(clipStart: int, offset: nat, rate: nat)
    requires rate > 0
    ensures var after := ChunkPts(clipStart, offset, rate) - clipStart;
            after * rate <= offset * 10_000_000 < (after + 1) * rate
  {
    DivisionBounds(offset * UNITS, rate);
  }

  /** What a packet is heard as at frame `t` of the clip: its own row there, if it is audible, of
      the clip's format, and the chunk's read succeeds. */
  function Heard(p: Packet, rate: nat, channels: nat, clipStart: int, t: int, ch: nat): int {
    var r := t - FrameOf(p.pts - clipStart, rate);
    if && p.audible && p.rate == rate && p.channels == channels && 0 <= r < |p.rows| && ch < |p.rows[r]|
       && !InSomeChunk(t, p.lost, ChunkSize(rate))
    then p.rows[r][ch]
    else 0
  }

  function HeardSum(packets: seq<Packet>, rate: nat, channels: nat, clipStart: int, t: int, ch: nat): int {
    if packets == [] then 0
    else
      HeardSum(packets[..|packets| - 1], rate, channels, clipStart, t, ch)
      + Heard(packets[|packets| - 1], rate, channels, clipStart, t, ch)
  }

  lemma PlacedIsHeard(p: Packet, rate: nat, channels: nat, clipStart: int, t: int, ch: nat)
    ensures Mixable(p, rate, channels) ==> At(PlacedOne(p, rate, clipStart), t, ch) == Heard(p, rate, channels, clipStart, t, ch)
    ensures !Mixable(p, rate, channels) ==> Heard(p, rate, channels, clipStart, t, ch) == 0
  {
  }

  /** The mix of the placed inputs is the sum of what every packet is heard as. */
  lemma {:induction false} MixIsEveryPacket(
    packets: seq<Packet>, rate: nat, channels: nat, clipStart: int, t: int, ch: nat)
    ensures CoverSum(Placed(packets, rate, channels, clipStart), t, ch)
         == HeardSum(packets, rate, channels, clipStart, t, ch)
  {
    if packets != [] {
      var n := |packets| - 1;
      var p, before := packets[n], Placed(packets[..n], rate, channels, clipStart);
      MixIsEveryPacket(packets[..n], rate, channels, clipStart, t, ch);
      PlacedIsHeard(p, rate, channels, clipStart, t, ch);
      if Mixable(p, rate, channels) {
        CoverSumAppend(before, [PlacedOne(p, rate, clipStart)], t, ch);
        assert [PlacedOne(p, rate, clipStart)][..0] == [];
      } else {
        assert before + [] == before;
      }
    }
  }

  /** Every sample of every chunk is the limited sum of all packets at its frame. */
  ghost predicate AreSums(chunks: seq<Chunk>, packets: seq<Packet>, rate: nat, channels: nat, clipStart: int) {
    forall k, j, ch :: 0 <= k < |chunks| && 0 <= j < |chunks[k].rows| && 0 <= ch < |chunks[k].rows[j]| ==>
      IsSum(chunks[k], j, ch, packets, rate, channels, clipStart)
  }

  ghost predicate IsSum(
    chunk: Chunk, j: nat, ch: nat, packets: seq<Packet>, rate: nat, channels: nat, clipStart: int)
    requires j < |chunk.rows| && ch < |chunk.rows[j]|
  {
    IsLimited(chunk.rows[j][ch], HeardSum(packets, rate, channels, clipStart, chunk.offset + j, ch), chunk.peak)
  }

  lemma MixesAreSums(chunks: seq<Chunk>, packets: seq<Packet>, rate: nat, channels: nat, clipStart: int)
    requires rate > 0 && AreMixes(chunks, Placed(packets, rate, channels, clipStart), channels, clipStart, rate)
    ensures AreSums(chunks, packets, rate, channels, clipStart)
  {
    forall k, j, ch | 0 <= k < |chunks| && 0 <= j < |chunks[k].rows| && 0 <= ch < |chunks[k].rows[j]|
      ensures IsSum(chunks[k], j, ch, packets, rate, channels, clipStart)
    {
      assert IsMix(chunks[k], Placed(packets, rate, channels, clipStart), channels);
      assert IsLimited(chunks[k].rows[j][ch],
                       MixAt(Placed(packets, rate, channels, clipStart), chunks[k].offset, j, ch), chunks[k].peak);
      MixIsEveryPacket(packets, rate, channels, clipStart, chunks[k].offset + j, ch);
    }
  }

  /** Mixes a clip's packets: either there is nothing to mix, or chunks of at most ten
      milliseconds tile the clip, each the limited sum of all packets that can be mixed. */
  method MixPcmPackets(packets: seq<Packet>, clipStart: int, clipEnd: int) returns (chunks: seq<Chunk>)
    requires PacketsWellFormed(packets)
    ensures var rate, channels := FirstNonZero(Rates(packets)), FirstNonZero(ChannelCounts(packets));
            if clipStart >= clipEnd || rate == 0 || channels == 0 then chunks == []
            else
              var total, inputs := FrameOf(clipEnd - clipStart, rate), Placed(packets, rate, channels, clipStart);
              if total <= 0 || Touching(inputs, total) == [] then chunks == []
              else
                && Tiles(chunks, total, ChunkSize(rate)) && AreMixes(chunks, inputs, channels, clipStart, rate)
                && AreSums(chunks, packets, rate, channels, clipStart)
  {
    var r, c := FirstFormat(packets);
    chunks := [];
    if clipStart >= clipEnd || r == 0 || c == 0 { return; }
    var total := FrameOf(clipEnd - clipStart, r);
    if total <= 0 { return; }
    var inputs := SelectInputs(packets, r, c, clipStart, total);
    if inputs == [] { return; }
    ghost var placed := Placed(packets, r, c, clipStart);
    PlacedIsWellFormed(packets, r, c, clipStart);
    PlacedAreLostByChunk(packets, r, c, clipStart);
    var sorted := SortInputs(inputs);
    SortedIsWellFormed(placed, total, sorted, c, ChunkSize(r));
    chunks := Sweep(sorted, total, ChunkSize(r), c, r, clipStart);
    forall k | 0 <= k < |chunks|
      ensures IsMix(chunks[k], placed, c)
    {
      TilesStayInside(chunks, total, ChunkSize(r), k);
      ChunkMixesEverything(chunks[k], placed, total, sorted, c);
    }
    MixesAreSums(chunks, packets, r, c, clipStart);
  }
}
