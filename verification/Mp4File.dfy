/** The MP4 file against its own index: sample tables, layout and media data of ISO/IEC
    14496-12 (boxes 4.2, stts 8.6.1.2, stsz 8.7.3, co64 8.7.5), written sequentially. */
module Mp4File {
  import opened Basics
  import opened AnnexB
  import opened BufferedWriter

  const U64: int := 0x1_0000_0000_0000_0000

  function U64Bytes(n: nat): Bytes {
    U32Bytes(n / U32 % U32) + U32Bytes(n % U32)
  }

  function U64Value(b: Bytes): nat
    requires |b| == 8
  {
    U32Value(b[..4]) * U32 + U32Value(b[4..])
  }

  lemma U64RoundTrip(n: nat)
    requires n < U64
    ensures U64Value(U64Bytes(n)) == n
  {
    var high, low := n / U32 % U32, n % U32;
    assert n / U32 < U32;
    U32RoundTrip(high);
    U32RoundTrip(low);
    assert U64Bytes(n)[..4] == U32Bytes(high) && U64Bytes(n)[4..] == U32Bytes(low);
  }

  // ------------------------------------------------------------------- tables

  /** Numbers in four or eight bytes each, one after the other. */
  function Column(values: seq<nat>, wide: bool): Bytes {
    if values == [] then []
    else
      Column(values[..|values| - 1], wide)
      + if wide then U64Bytes(values[|values| - 1]) else U32Bytes(values[|values| - 1])
  }

  function Width(wide: bool): nat {
    if wide then 8 else 4
  }

  function Limit(wide: bool): nat {
    if wide then U64 else U32
  }

  function CellAt(i: nat, wide: bool): nat {
    if wide then 8 * i else 4 * i
  }

  function Cell(b: Bytes, at: nat, wide: bool): nat
    requires at + Width(wide) <= |b|
  {
    if wide then U64Value(b[at..at + 8]) else U32Value(b[at..at + 4])
  }

  function CellBytes(value: nat, wide: bool): Bytes {
    if wide then U64Bytes(value) else U32Bytes(value)
  }

  lemma {:induction false} ColumnSize(values: seq<nat>, wide: bool)
    ensures |Column(values, wide)| == CellAt(|values|, wide)
  {
    if values != [] {
      ColumnSize(values[..|values| - 1], wide);
    }
  }

  lemma {:induction false} CellInFront(head: Bytes, front: Bytes, tail: Bytes, at: nat, wide: bool)
    requires at + Width(wide) <= |front|
    ensures Cell(head + front + tail, |head| + at, wide) == Cell(front, at, wide)
  {
    var w := Width(wide);
    assert (head + front + tail)[|head| + at..|head| + at + w] == front[at..at + w];
  }

  lemma CellWhole(value: nat, wide: bool)
    requires value < Limit(wide)
    ensures Cell(CellBytes(value, wide), 0, wide) == value
  {
    if wide {
      U64RoundTrip(value);
      assert U64Bytes(value)[0..8] == U64Bytes(value);
    } else {
      U32RoundTrip(value);
      assert U32Bytes(value)[0..4] == U32Bytes(value);
    }
  }

  lemma CellLast(front: Bytes, value: nat, wide: bool)
    requires value < Limit(wide)
    ensures |CellBytes(value, wide)| == Width(wide)
    ensures Cell(front + CellBytes(value, wide), |front|, wide) == value
  {
    var last := CellBytes(value, wide);
    CellWhole(value, wide);
    CellInFront(front, last, [], 0, wide);
    assert front + last + [] == front + last;
  }

  lemma CellEarlier(front: Bytes, last: Bytes, at: nat, wide: bool)
    requires at + Width(wide) <= |front|
    ensures Cell(front + last, at, wide) == Cell(front, at, wide)
  {
    CellInFront([], front, last, at, wide);
    assert [] + front + last == front + last;
  }

  lemma ColumnSplits(values: seq<nat>, wide: bool)
    requires values != []
    ensures var n := |values| - 1;
            Column(values, wide) == Column(values[..n], wide) + CellBytes(values[n], wide)
  {
  }

  /** The i-th cell of a written column is the i-th value. */
  lemma {:induction false} CellReadsBack(values: seq<nat>, wide: bool, i: nat)
    requires i < |values| && values[i] < Limit(wide)
    ensures CellAt(i, wide) + Width(wide) <= |Column(values, wide)|
    ensures Cell(Column(values, wide), CellAt(i, wide), wide) == values[i]
  {
    var n := |values| - 1;
    ColumnSize(values, wide);
    ColumnSize(values[..n], wide);
    ColumnSplits(values, wide);
    if i == n {
      CellLast(Column(values[..n], wide), values[n], wide);
    } else {
      CellReadsBack(values[..n], wide, i);
      CellEarlier(Column(values[..n], wide), CellBytes(values[n], wide), CellAt(i, wide), wide);
    }
  }

  /** A box that carries a version and flags of zero. */
  function FullBox(kind: Bytes, payload: Bytes): Bytes
    requires |kind| == 4
  {
    U32Bytes((|payload| + 12) % U32) + kind + [0, 0, 0, 0] + payload
  }

  const STTS: Bytes := [0x73, 0x74, 0x74, 0x73]
  const STSZ: Bytes := [0x73, 0x74, 0x73, 0x7A]
  const CO64: Bytes := [0x63, 0x6F, 0x36, 0x34]
  const STSC: Bytes := [0x73, 0x74, 0x73, 0x63]
  const MDAT: Bytes := [0x6D, 0x64, 0x61, 0x74]

  lemma BoxDeclaresItsSize(kind: Bytes, payload: Bytes)
    requires |kind| == 4 && |payload| + 12 < U32
    ensures U32Value(FullBox(kind, payload)[..4]) == |FullBox(kind, payload)|
    ensures FullBox(kind, payload)[12..] == payload
  {
    var size := |payload| + 12;
    U32RoundTrip(size);
    assert size % U32 == size;
    var b := U32Bytes(size) + (kind + [0, 0, 0, 0] + payload);
    assert FullBox(kind, payload) == b && b[..4] == U32Bytes(size);
  }

  /** What the muxer records of a sample. */
  datatype SampleInfo = SampleInfo(size: nat, duration: nat, fileOffset: nat)

  function Sizes(samples: seq<SampleInfo>): seq<nat> {
    seq(|samples|, i requires 0 <= i < |samples| => samples[i].size)
  }

  function Offsets(samples: seq<SampleInfo>): seq<nat> {
    seq(|samples|, i requires 0 <= i < |samples| => samples[i].fileOffset)
  }

  /** The duration a sample is written with. */
  function Planned(samples: seq<SampleInfo>): seq<nat> {
    seq(|samples|, i requires 0 <= i < |samples| => Max(1, samples[i].duration))
  }

  method MakeStsz(samples: seq<SampleInfo>) returns (b: Bytes)
    ensures b == StszOf(samples)
  {
    var payload := U32Bytes(0) + U32Bytes(|samples| % U32);
    for i := 0 to |samples|
      invariant payload == U32Bytes(0) + U32Bytes(|samples| % U32) + Column(Sizes(samples[..i]), false)
    {
      ColumnGrows(Sizes(samples[..i]), samples[i].size, false);
      assert Sizes(samples[..i + 1]) == Sizes(samples[..i]) + [samples[i].size];
      Regroup(U32Bytes(0) + U32Bytes(|samples| % U32), Column(Sizes(samples[..i]), false), U32Bytes(samples[i].size));
      payload := payload + U32Bytes(samples[i].size);
    }
    assert samples[..|samples|] == samples;
    b := FullBox(STSZ, payload);
  }

  method MakeCo64(samples: seq<SampleInfo>) returns (b: Bytes)
    ensures b == Co64Of(samples)
  {
    var payload := U32Bytes(|samples| % U32);
    for i := 0 to |samples|
      invariant payload == U32Bytes(|samples| % U32) + Column(Offsets(samples[..i]), true)
    {
      ColumnGrows(Offsets(samples[..i]), samples[i].fileOffset, true);
      assert Offsets(samples[..i + 1]) == Offsets(samples[..i]) + [samples[i].fileOffset];
      Regroup(U32Bytes(|samples| % U32), Column(Offsets(samples[..i]), true), U64Bytes(samples[i].fileOffset));
      payload := payload + U64Bytes(samples[i].fileOffset);
    }
    assert samples[..|samples|] == samples;
    b := FullBox(CO64, payload);
  }

  lemma ColumnGrows(values: seq<nat>, value: nat, wide: bool)
    ensures Column(values + [value], wide) == Column(values, wide) + if wide then U64Bytes(value) else U32Bytes(value)
  {
    assert (values + [value])[..|values|] == values;
  }

  // -------------------------------------------------------------------- stts

  datatype Run = Run(count: nat, duration: nat)

  function Repeat(n: nat, duration: nat): seq<nat> {
    seq(n, i => duration)
  }

  /** The durations a run-length list stands for. */
  function Expand(runs: seq<Run>): seq<nat> {
    if runs == [] then []
    else
      var last := runs[|runs| - 1];
      Expand(runs[..|runs| - 1]) + Repeat(last.count, last.duration)
  }

  function Flat(runs: seq<Run>): seq<nat> {
    if runs == [] then []
    else
      var last := runs[|runs| - 1];
      Flat(runs[..|runs| - 1]) + [last.count, last.duration]
  }

  /** Neighbouring runs differ and none is empty, so the list is as short as it can be. */
  ghost predicate Maximal(runs: seq<Run>) {
    && (forall i :: 0 <= i < |runs| ==> runs[i].count >= 1)
    && (forall i :: 0 <= i < |runs| - 1 ==> runs[i].duration != runs[i + 1].duration)
  }

  lemma ExpandLonger(runs: seq<Run>)
    requires runs != []
    ensures var n := |runs| - 1;
            var longer := runs[n := runs[n].(count := runs[n].count + 1)];
            Expand(longer) == Expand(runs) + [runs[n].duration]
  {
    var n := |runs| - 1;
    var longer := runs[n := runs[n].(count := runs[n].count + 1)];
    assert longer[..n] == runs[..n];
    assert Repeat(runs[n].count + 1, runs[n].duration) == Repeat(runs[n].count, runs[n].duration) + [runs[n].duration];
  }

  lemma ExpandNew(runs: seq<Run>, duration: nat)
    ensures Expand(runs + [Run(1, duration)]) == Expand(runs) + [duration]
  {
    assert (runs + [Run(1, duration)])[..|runs|] == runs;
    assert Repeat(1, duration) == [duration];
  }

  /** One more duration: a longer last run, or a new one. */
  function RunAdded(runs: seq<Run>, duration: nat): seq<Run> {
    var n := |runs| - 1;
    if runs != [] && runs[n].duration == duration then runs[n := runs[n].(count := runs[n].count + 1)]
    else runs + [Run(1, duration)]
  }

  /** The run-length list of the planned durations. */
  function Runs(samples: seq<SampleInfo>): seq<Run> {
    if samples == [] then []
    else
      var n := |samples| - 1;
      RunAdded(Runs(samples[..n]), Max(1, samples[n].duration))
  }

  lemma RunAddedExpands(runs: seq<Run>, duration: nat)
    requires Maximal(runs)
    ensures Expand(RunAdded(runs, duration)) == Expand(runs) + [duration] && Maximal(RunAdded(runs, duration))
  {
    if runs != [] && runs[|runs| - 1].duration == duration {
      ExpandLonger(runs);
    } else {
      ExpandNew(runs, duration);
    }
  }

  lemma PlannedAppend(samples: seq<SampleInfo>)
    requires samples != []
    ensures var n := |samples| - 1;
            Planned(samples) == Planned(samples[..n]) + [Max(1, samples[n].duration)]
  {
  }

  /** The runs expand to the planned durations; none is empty and neighbours differ. */
  lemma {:induction false} RunsExpandToPlan(samples: seq<SampleInfo>)
    ensures Expand(Runs(samples)) == Planned(samples) && Maximal(Runs(samples))
  {
    if samples != [] {
      var n := |samples| - 1;
      RunsExpandToPlan(samples[..n]);
      RunAddedExpands(Runs(samples[..n]), Max(1, samples[n].duration));
      PlannedAppend(samples);
    }
  }

  method RunLengths(samples: seq<SampleInfo>) returns (runs: seq<Run>)
    ensures runs == Runs(samples)
  {
    runs := [];
    for i := 0 to |samples|
      invariant runs == Runs(samples[..i])
    {
      assert samples[..i + 1][..i] == samples[..i];
      var duration := Max(1, samples[i].duration);
      var n := |runs| - 1;
      if runs != [] && runs[n].duration == duration {
        runs := runs[n := runs[n].(count := runs[n].count + 1)];
      } else {
        runs := runs + [Run(1, duration)];
      }
    }
    assert samples[..|samples|] == samples;
  }

  function SttsOf(samples: seq<SampleInfo>): Bytes {
    FullBox(STTS, U32Bytes(|Runs(samples)| % U32) + Column(Flat(Runs(samples)), false))
  }

  method MakeStts(samples: seq<SampleInfo>) returns (b: Bytes)
    ensures b == SttsOf(samples)
  {
    var entries := RunLengths(samples);
    var payload := U32Bytes(|entries| % U32);
    for i := 0 to |entries|
      invariant payload == U32Bytes(|entries| % U32) + Column(Flat(entries[..i]), false)
    {
      ghost var head, flat := U32Bytes(|entries| % U32), Flat(entries[..i]);
      var count, duration := entries[i].count, entries[i].duration;
      assert entries[..i + 1][..i] == entries[..i];
      assert Flat(entries[..i + 1]) == flat + [count] + [duration];
      ColumnGrows(flat, count, false);
      ColumnGrows(flat + [count], duration, false);
      Regroup(head, Column(flat, false), U32Bytes(count));
      Regroup(head, Column(flat + [count], false), U32Bytes(duration));
      payload := payload + U32Bytes(count);
      payload := payload + U32Bytes(duration);
    }
    assert entries[..|entries|] == entries;
    b := FullBox(STTS, payload);
  }

  /** Number `m` after the count of a table of 32-bit numbers. */
  function Number(stts: Bytes, m: nat): nat
    requires 20 + 4 * m <= |stts|
  {
    Cell(stts, 16 + 4 * m, false)
  }

  /** Run `i` of a written table: a count and a duration. */
  function RunIn(stts: Bytes, i: nat): Run
    requires 24 + 8 * i <= |stts|
  {
    Run(Number(stts, 2 * i), Number(stts, 2 * i + 1))
  }

  /** The first `n` runs of a written table. */
  function RunsIn(stts: Bytes, n: nat): seq<Run>
    requires 16 + 8 * n <= |stts|
  {
    seq(n, i requires 0 <= i < n => RunIn(stts, i))
  }

  /** The sample durations a player takes from the table. */
  function ReadDurations(stts: Bytes): Option<seq<nat>> {
    if |stts| < 16 || 16 + 8 * Cell(stts, 12, false) > |stts| then None
    else Some(Expand(RunsIn(stts, Cell(stts, 12, false))))
  }

  lemma {:induction false} FlatHolds(runs: seq<Run>, j: nat)
    requires j < |runs|
    ensures |Flat(runs)| == 2 * |runs|
    ensures Flat(runs)[2 * j] == runs[j].count && Flat(runs)[2 * j + 1] == runs[j].duration
  {
    var n := |runs| - 1;
    if n > 0 {
      FlatHolds(runs[..n], if j < n then j else 0);
    }
  }

  /** Runs are no more and no longer than the samples, and last as long as some sample. */
  ghost predicate RunsFit(runs: seq<Run>, count: nat) {
    |runs| <= count && forall r <- runs :: r.count <= count && r.duration < U32
  }

  lemma {:induction false} RunsOfSamplesFit(samples: seq<SampleInfo>)
    requires forall info <- samples :: info.duration < U32
    ensures RunsFit(Runs(samples), |samples|)
  {
    if samples != [] {
      var n := |samples| - 1;
      assert samples[n] in samples && forall info <- samples[..n] :: info in samples;
      RunsOfSamplesFit(samples[..n]);
      RunAddedFits(Runs(samples[..n]), Max(1, samples[n].duration), n);
    }
  }

  lemma RunAddedFits(runs: seq<Run>, duration: nat, count: nat)
    requires RunsFit(runs, count) && duration < U32
    ensures RunsFit(RunAdded(runs, duration), count + 1)
  {
    var n := |runs| - 1;
    if runs != [] && runs[n].duration == duration {
      assert runs[n] in runs;
      assert forall r <- RunAdded(runs, duration) :: r in runs || r == Run(runs[n].count + 1, duration);
    }
  }

  /** The table's numbers are the values. */
  ghost predicate HoldsNumbers(stts: Bytes, values: seq<nat>) {
    forall m :: 0 <= m < |values| ==> HoldsNumber(stts, values, m)
  }

  ghost predicate HoldsNumber(stts: Bytes, values: seq<nat>, m: nat)
    requires m < |values|
  {
    20 + 4 * m <= |stts| && Number(stts, m) == values[m]
  }

  lemma NumbersReadBack(kind: Bytes, head: Bytes, values: seq<nat>)
    requires |kind| == |head| == 4 && forall value <- values :: value < U32
    ensures HoldsNumbers(FullBox(kind, head + Column(values, false)), values)
  {
    var b := FullBox(kind, head + Column(values, false));
    forall m | 0 <= m < |values|
      ensures HoldsNumber(b, values, m)
    {
      assert values[m] in values;
      TableCell(kind, head, values, false, m);
    }
  }

  lemma {:induction false} FlatFits(runs: seq<Run>, limit: nat)
    requires forall r <- runs :: r.count < limit && r.duration < limit
    ensures forall value <- Flat(runs) :: value < limit
  {
    if runs != [] {
      assert runs[|runs| - 1] in runs && forall r <- runs[..|runs| - 1] :: r in runs;
      FlatFits(runs[..|runs| - 1], limit);
    }
  }

  lemma {:induction false} RunReadsBack(runs: seq<Run>, stts: Bytes, i: nat)
    requires HoldsNumbers(stts, Flat(runs)) && i < |runs|
    ensures 24 + 8 * i <= |stts| && RunIn(stts, i) == runs[i]
  {
    FlatHolds(runs, i);
    assert HoldsNumber(stts, Flat(runs), 2 * i) && HoldsNumber(stts, Flat(runs), 2 * i + 1);
  }

  lemma {:induction false} RunsReadBack(runs: seq<Run>, stts: Bytes)
    requires HoldsNumbers(stts, Flat(runs)) && |stts| >= 16
    ensures 16 + 8 * |runs| <= |stts| && RunsIn(stts, |runs|) == runs
  {
    if runs != [] {
      RunReadsBack(runs, stts, |runs| - 1);
    }
    forall i | 0 <= i < |runs|
      ensures 24 + 8 * i <= |stts| && RunIn(stts, i) == runs[i]
    {
      RunReadsBack(runs, stts, i);
    }
  }

  /** A player reads the planned durations out of the written table. */
  lemma SttsReadsBack(samples: seq<SampleInfo>)
    requires |samples| < U32 && forall info <- samples :: info.duration < U32
    ensures ReadDurations(SttsOf(samples)) == Some(Planned(samples))
  {
    var runs := Runs(samples);
    RunsOfSamplesFit(samples);
    FlatFits(runs, U32);
    NumbersReadBack(STTS, U32Bytes(|runs| % U32), Flat(runs));
    CountReadsBack(STTS, |runs|, Column(Flat(runs), false));
    RunsReadBack(runs, SttsOf(samples));
    RunsExpandToPlan(samples);
  }

  lemma {:induction false} CountReadsBack(kind: Bytes, count: nat, column: Bytes)
    requires |kind| == 4 && count < U32
    ensures var b := FullBox(kind, U32Bytes(count % U32) + column);
            |b| >= 16 && Cell(b, 12, false) == count
  {
    assert count % U32 == count;
    var size := U32Bytes((|U32Bytes(count) + column| + 12) % U32);
    assert |size| == 4;
    CountCell(size + kind, count, column);
  }

  lemma {:induction false} CountCell(header: Bytes, count: nat, column: Bytes)
    requires |header| == 8 && count < U32
    ensures var b := header + [0, 0, 0, 0] + (U32Bytes(count) + column);
            |b| >= 16 && Cell(b, 12, false) == count
  {
    var front := header + [0, 0, 0, 0];
    CellWhole(count, false);
    CellInFront(front, CellBytes(count, false), column, 0, false);
    Regroup(front, CellBytes(count, false), column);
  }

  // ------------------------------------------------------------------ layout

  function Concat(payloads: seq<Bytes>): Bytes {
    if payloads == [] then []
    else Concat(payloads[..|payloads| - 1]) + payloads[|payloads| - 1]
  }

  /** Where the payload after the first `i` begins. */
  function Position(base: nat, payloads: seq<Bytes>, i: nat): nat
    requires i <= |payloads|
  {
    base + |Concat(payloads[..i])|
  }

  /** The infos describe these payloads laid out from `base` on. */
  ghost predicate LaidOut(infos: seq<SampleInfo>, payloads: seq<Bytes>, base: nat) {
    && |infos| == |payloads|
    && forall i :: 0 <= i < |infos| ==>
         infos[i].size == |payloads[i]| && infos[i].fileOffset == Position(base, payloads, i)
  }

  lemma ConcatGrows(payloads: seq<Bytes>, i: nat)
    requires i < |payloads|
    ensures Concat(payloads[..i + 1]) == Concat(payloads[..i]) + payloads[i]
  {
    assert payloads[..i + 1][..i] == payloads[..i];
  }

  /** The i-th payload lies at its position inside the concatenation. */
  lemma {:induction false} PayloadAtPosition(payloads: seq<Bytes>, i: nat)
    requires i < |payloads|
    ensures var at := |Concat(payloads[..i])|;
            at + |payloads[i]| <= |Concat(payloads)| && Concat(payloads)[at..at + |payloads[i]|] == payloads[i]
  {
    var n := |payloads| - 1;
    if i < n {
      PayloadAtPosition(payloads[..n], i);
      assert payloads[..n][..i] == payloads[..i];
      var at, front := |Concat(payloads[..i])|, Concat(payloads[..n]);
      assert Concat(payloads)[at..at + |payloads[i]|] == front[at..at + |payloads[i]|];
    } else {
      assert payloads[..i] == payloads[..n];
    }
  }

  /** The mdat header: a 32-bit size, or the 64-bit form when that is too small. */
  function MdatHeader(size: nat): Bytes {
    if size + 8 >= U32 then U32Bytes(1) + MDAT + U64Bytes((size + 16) % U64)
    else U32Bytes(size + 8) + MDAT
  }

  /** What a reader takes as the size of the box that begins with `b`. */
  function DeclaredSize(b: Bytes): Option<nat> {
    if |b| < 8 then None
    else if U32Value(b[..4]) != 1 then Some(U32Value(b[..4]))
    else if |b| < 16 then None
    else Some(U64Value(b[8..16]))
  }

  lemma DeclaredSizeSmall(b: Bytes, size: nat, rest: Bytes)
    requires b == U32Bytes(size) + rest && 8 <= size < U32 && |rest| >= 4
    ensures DeclaredSize(b) == Some(size)
  {
    assert b[..4] == U32Bytes(size);
    U32RoundTrip(size);
  }

  lemma DeclaredSizeLarge(b: Bytes, size: nat)
    requires b == U32Bytes(1) + MDAT + U64Bytes(size) && size < U64
    ensures DeclaredSize(b) == Some(size)
  {
    assert b[..4] == U32Bytes(1);
    assert b[8..16] == U64Bytes(size);
    U32RoundTrip(1);
    U64RoundTrip(size);
  }

  /** The declared size covers the header and the media, in either form. */
  lemma MdatCoversMedia(size: nat)
    requires size + 16 < U64
    ensures DeclaredSize(MdatHeader(size)) == Some(|MdatHeader(size)| + size)
  {
    if size + 8 >= U32 {
      assert (size + 16) % U64 == size + 16;
      DeclaredSizeLarge(MdatHeader(size), size + 16);
    } else {
      DeclaredSizeSmall(MdatHeader(size), size + 8, MDAT);
    }
  }

  /** Where the media data begins. */
  function MediaStart(ftyp: Bytes, payloads: seq<Bytes>): nat {
    |ftyp| + |MdatHeader(|Concat(payloads)|)|
  }

  function File(ftyp: Bytes, payloads: seq<Bytes>, moov: Bytes): Bytes {
    ftyp + MdatHeader(|Concat(payloads)|) + Concat(payloads) + moov
  }

  /** The number of samples by the size table. */
  function SampleCount(stsz: Bytes): nat {
    if |stsz| < 20 then 0 else Cell(stsz, 16, false)
  }

  /** The size of sample `i`: one size for all if the table names one, else its own cell. */
  function SampleSize(stsz: Bytes, i: nat): Option<nat> {
    if i >= SampleCount(stsz) then None
    else if Cell(stsz, 12, false) != 0 then Some(Cell(stsz, 12, false))
    else if 20 + 4 * i + 4 > |stsz| then None
    else Some(Cell(stsz, 20 + 4 * i, false))
  }

  /** The sizes of samples `from` to `to` together. */
  function SizeSum(stsz: Bytes, from: nat, to: nat): Option<nat>
    decreases to - from
  {
    if from >= to then Some(0)
    else
      match (SampleSize(stsz, from), SizeSum(stsz, from + 1, to))
      case (Some(size), Some(rest)) => Some(size + rest)
      case _ => None
  }

  function ChunkOffset(co64: Bytes, chunk: nat): Option<nat> {
    if |co64| < 16 || chunk >= Cell(co64, 12, false) || 16 + 8 * chunk + 8 > |co64| then None
    else Some(Cell(co64, 16 + 8 * chunk, true))
  }

  /** The samples in a chunk, when the table says the same of every chunk. */
  function SamplesPerChunk(stsc: Bytes): Option<nat> {
    if |stsc| < 28 || Cell(stsc, 12, false) != 1 || Cell(stsc, 16, false) != 1 || Cell(stsc, 20, false) == 0 then None
    else Some(Cell(stsc, 20, false))
  }

  function SliceOf(file: Bytes, at: nat, size: nat): Option<Bytes> {
    if at + size > |file| then None else Some(file[at..at + size])
  }

  /** Reads sample `i` of a track the way a player does, from the tables' bytes: its chunk, what
      lies before it in the chunk, and its size. */
  function ReadSample(file: Bytes, stsz: Bytes, stsc: Bytes, co64: Bytes, i: nat): Option<Bytes> {
    match SamplesPerChunk(stsc)
    case None => None
    case Some(n) =>
      match (SampleSize(stsz, i), ChunkOffset(co64, i / n), SizeSum(stsz, i / n * n, i))
      case (Some(size), Some(offset), Some(before)) => SliceOf(file, offset + before, size)
      case _ => None
  }

  /** A full box is twelve bytes and its payload. */
  lemma {:induction false} FullBoxIs(kind: Bytes, payload: Bytes) returns (header: Bytes)
    requires |kind| == 4
    ensures |header| == 12 && FullBox(kind, payload) == header + payload
  {
    var size := U32Bytes((|payload| + 12) % U32);
    assert |size| == 4;
    header := size + kind + [0, 0, 0, 0];
  }

  lemma {:induction false} TableCell(kind: Bytes, head: Bytes, values: seq<nat>, wide: bool, i: nat)
    requires |kind| == 4 && i < |values| && values[i] < Limit(wide)
    ensures var b := FullBox(kind, head + Column(values, wide));
            var at := 12 + |head| + CellAt(i, wide);
            at + Width(wide) <= |b| && Cell(b, at, wide) == values[i]
  {
    var column := Column(values, wide);
    var header := FullBoxIs(kind, head + column);
    CellReadsBack(values, wide, i);
    CellBehind(header, head, column, CellAt(i, wide), wide);
  }

  lemma {:induction false} CellBehind(header: Bytes, head: Bytes, column: Bytes, at: nat, wide: bool)
    requires at + Width(wide) <= |column|
    ensures Cell(header + (head + column), |header| + |head| + at, wide) == Cell(column, at, wide)
  {
    CellInFront(header + head, column, [], at, wide);
    assert header + head + column + [] == header + (head + column);
  }

  lemma SliceInside(head: Bytes, middle: Bytes, tail: Bytes, at: nat, size: nat)
    requires at + size <= |middle|
    ensures |head| + at + size <= |head + middle + tail|
    ensures (head + middle + tail)[|head| + at..|head| + at + size] == middle[at..at + size]
  {
  }

  lemma {:induction false} ConcatSplits(a: seq<Bytes>, b: seq<Bytes>)
    ensures Concat(a + b) == Concat(a) + Concat(b)
  {
    if b == [] {
      assert a + b == a && Concat(a) + [] == Concat(a);
    } else {
      var n := |b| - 1;
      assert (a + b)[..|a| + n] == a + b[..n];
      ConcatSplits(a, b[..n]);
      Regroup(Concat(a), Concat(b[..n]), b[n]);
    }
  }

  ghost predicate InFile(file: Bytes, at: nat, payload: Bytes) {
    at + |payload| <= |file| && file[at..at + |payload|] == payload
  }

  /** Every payload lies in the file at its planned position. */
  lemma SampleAtPosition(file: Bytes, ftyp: Bytes, payloads: seq<Bytes>, moov: Bytes, k: nat, at: nat)
    requires k < |payloads| && file == File(ftyp, payloads, moov)
    requires at == Position(MediaStart(ftyp, payloads), payloads, k)
    ensures InFile(file, at, payloads[k])
  {
    var media := Concat(payloads);
    PayloadAtPosition(payloads, k);
    SliceInside(ftyp + MdatHeader(|media|), media, moov, |Concat(payloads[..k])|, |payloads[k]|);
  }

  lemma TrackPosition(payloads: seq<Bytes>, base: nat, first: nat, count: nat, i: nat)
    requires first + count <= |payloads| && i < count
    ensures Position(Position(base, payloads, first), payloads[first..first + count], i)
         == Position(base, payloads, first + i)
  {
    var track := payloads[first..first + count];
    ConcatSplits(payloads[..first], track[..i]);
    assert payloads[..first] + track[..i] == payloads[..first + i];
  }

  function StszOf(infos: seq<SampleInfo>): Bytes {
    FullBox(STSZ, U32Bytes(0) + U32Bytes(|infos| % U32) + Column(Sizes(infos), false))
  }

  function Co64Of(infos: seq<SampleInfo>): Bytes {
    FullBox(CO64, U32Bytes(|infos| % U32) + Column(Offsets(infos), true))
  }

  /** Every sample is a chunk of its own. */
  function StscBox(): Bytes {
    FullBox(STSC, U32Bytes(1) + U32Bytes(1) + U32Bytes(1) + U32Bytes(1))
  }

  lemma {:induction false} SecondReadsBack(kind: Bytes, first: nat, second: nat, column: Bytes)
    requires |kind| == 4 && second < U32
    ensures var b := FullBox(kind, U32Bytes(first) + U32Bytes(second) + column);
            |b| >= 20 && Cell(b, 16, false) == second
  {
    var head := U32Bytes(first) + U32Bytes(second);
    SecondCell(U32Bytes((|head + column| + 12) % U32) + kind, first, second, column);
  }

  lemma {:induction false} SecondCell(header: Bytes, first: nat, second: nat, column: Bytes)
    requires |header| == 8 && second < U32
    ensures var b := header + [0, 0, 0, 0] + (U32Bytes(first) + U32Bytes(second) + column);
            |b| >= 20 && Cell(b, 16, false) == second
  {
    var front := header + [0, 0, 0, 0] + U32Bytes(first);
    CellWhole(second, false);
    CellInFront(front, CellBytes(second, false), column, 0, false);
    assert header + [0, 0, 0, 0] + (U32Bytes(first) + U32Bytes(second) + column)
        == front + CellBytes(second, false) + column;
  }

  lemma {:induction false} StszHeads(count: nat, column: Bytes)
    requires count < U32
    ensures var b := FullBox(STSZ, U32Bytes(0) + U32Bytes(count) + column);
            |b| >= 20 && Cell(b, 12, false) == 0 && Cell(b, 16, false) == count
  {
    SecondReadsBack(STSZ, 0, count, column);
    CountReadsBack(STSZ, 0, U32Bytes(count) + column);
    Regroup(U32Bytes(0), U32Bytes(count), column);
  }

  lemma {:induction false} StszCell(infos: seq<SampleInfo>, i: nat)
    requires i < |infos| && infos[i].size < U32
    ensures 20 + 4 * i + 4 <= |StszOf(infos)| && Cell(StszOf(infos), 20 + 4 * i, false) == infos[i].size
  {
    TableCell(STSZ, U32Bytes(0) + U32Bytes(|infos| % U32), Sizes(infos), false, i);
  }

  lemma {:induction false} StszReadsBack(infos: seq<SampleInfo>, i: nat)
    requires i < |infos| < U32 && infos[i].size < U32
    ensures SampleCount(StszOf(infos)) == |infos| && SampleSize(StszOf(infos), i) == Some(infos[i].size)
  {
    StszCountReadsBack(infos);
    StszCell(infos, i);
  }

  lemma {:induction false} StszCountReadsBack(infos: seq<SampleInfo>)
    requires |infos| < U32
    ensures |StszOf(infos)| >= 20 && Cell(StszOf(infos), 12, false) == 0 && SampleCount(StszOf(infos)) == |infos|
  {
    StszHeads(|infos| % U32, Column(Sizes(infos), false));
  }

  lemma {:induction false} Co64ReadsBack(infos: seq<SampleInfo>, i: nat)
    requires i < |infos| < U32 && infos[i].fileOffset < U64
    ensures ChunkOffset(Co64Of(infos), i) == Some(infos[i].fileOffset)
  {
    TableCell(CO64, U32Bytes(|infos| % U32), Offsets(infos), true, i);
    CountReadsBack(CO64, |infos|, Column(Offsets(infos), true));
  }

  lemma {:induction false} ColumnOfThree(value: nat)
    ensures Column([value, value, value], false) == U32Bytes(value) + U32Bytes(value) + U32Bytes(value)
  {
    ColumnGrows([], value, false);
    ColumnGrows([value], value, false);
    ColumnGrows([value, value], value, false);
    assert [] + [value] == [value] && [value] + [value] == [value, value];
    assert [value, value] + [value] == [value, value, value];
  }

  lemma {:induction false} StscReadsBack()
    ensures SamplesPerChunk(StscBox()) == Some(1)
  {
    var one, values := U32Bytes(1), [1, 1, 1];
    ColumnOfThree(1);
    Regroup(one, one, one);
    Regroup(one, one + one, one);
    CountReadsBack(STSC, 1, one + one + one);
    TableCell(STSC, one, values, false, 0);
    TableCell(STSC, one, values, false, 1);
  }

  /** The three tables give sample `i` of the track its size and offset. */
  predicate Locates(stsz: Bytes, stsc: Bytes, co64: Bytes, i: nat, info: SampleInfo) {
    SamplesPerChunk(stsc) == Some(1) && SampleSize(stsz, i) == Some(info.size) && ChunkOffset(co64, i) == Some(info.fileOffset)
  }

  /** The tables as written read back, for every sample within the fields' widths. */
  lemma TablesLocateSamples(infos: seq<SampleInfo>, i: nat)
    requires i < |infos| < U32 && infos[i].size < U32 && infos[i].fileOffset < U64
    ensures Locates(StszOf(infos), StscBox(), Co64Of(infos), i, infos[i])
  {
    StszReadsBack(infos, i);
    StscReadsBack();
    Co64ReadsBack(infos, i);
  }

  lemma LocatedSampleIsRead(
    file: Bytes, stsz: Bytes, stsc: Bytes, co64: Bytes, i: nat, info: SampleInfo, payload: Bytes)
    requires Locates(stsz, stsc, co64, i, info) && info.size == |payload|
    requires InFile(file, info.fileOffset, payload)
    ensures ReadSample(file, stsz, stsc, co64, i) == Some(payload)
  {
  }

  lemma PlannedInTrack(payloads: seq<Bytes>, base: nat, first: nat, infos: seq<SampleInfo>, i: nat)
    requires first + |infos| <= |payloads| && i < |infos|
    requires LaidOut(infos, payloads[first..first + |infos|], Position(base, payloads, first))
    ensures infos[i].size == |payloads[first + i]| && infos[i].fileOffset == Position(base, payloads, first + i)
  {
    TrackPosition(payloads, base, first, |infos|, i);
  }

  /** Sample ranges tile the media data: each begins where the one before it ends. */
  lemma RangesTileMedia(payloads: seq<Bytes>, base: nat, infos: seq<SampleInfo>)
    requires LaidOut(infos, payloads, base)
    ensures infos != [] ==> infos[0].fileOffset == base
    ensures forall i :: 0 < i < |infos| ==> infos[i].fileOffset == infos[i - 1].fileOffset + infos[i - 1].size
    ensures infos != [] ==>
              infos[|infos| - 1].fileOffset + infos[|infos| - 1].size == base + |Concat(payloads)|
  {
    forall i | 0 <= i < |infos|
      ensures Position(base, payloads, i + 1) == infos[i].fileOffset + infos[i].size
    {
      ConcatGrows(payloads, i);
    }
    if infos != [] {
      assert payloads[..|payloads|] == payloads;
    }
  }

  // ---------------------------------------------------------------- the muxer

  /** One planned video sample: a packet and the spans of it that are written. */
  datatype VideoSample = VideoSample(packet: Bytes, inMemory: bool, spans: seq<Span>)

  function VideoPayload(sample: VideoSample): Bytes {
    Prefixed(Payloads(sample.packet, sample.spans))
  }

  function VideoPayloads(samples: seq<VideoSample>): seq<Bytes> {
    seq(|samples|, i requires 0 <= i < |samples| => VideoPayload(samples[i]))
  }

  function Flatten(tracks: seq<seq<Bytes>>): seq<Bytes> {
    if tracks == [] then [] else Flatten(tracks[..|tracks| - 1]) + tracks[|tracks| - 1]
  }

  /** The duration of every sample but the last: the distance to the next one. */
  function DurationBetween(pts: int, next: int): (d: nat)
    ensures 1 <= d < U32
  {
    Max(1, Min(if next > pts then next - pts else 1, U32 - 1))
  }

  function FinalDuration(packetDuration: int, fps: int): (d: nat)
    ensures 1 <= d < U32
  {
    Max(1, Min(if packetDuration > 0 then packetDuration else 10_000_000 / Max(1, fps), U32 - 1))
  }

  /** The durations of the first `n` samples together, by their own and the next stamp. */
  function DurationTotal(pts: seq<int>, n: nat): nat
    requires n < |pts|
  {
    if n == 0 then 0 else DurationTotal(pts, n - 1) + DurationBetween(pts[n - 1], pts[n])
  }

  /** With increasing stamps less than the field's width apart, samples end where the next begins. */
  lemma {:induction false} DurationsFollowStamps(pts: seq<int>, n: nat)
    requires n < |pts| && forall i :: 0 < i <= n ==> 0 < pts[i] - pts[i - 1] < U32
    ensures DurationTotal(pts, n) == pts[n] - pts[0]
  {
    if n > 0 {
      DurationsFollowStamps(pts, n - 1);
    }
  }

  // Gives every sample of a track its offset.
  method PlaceTrack(infos: seq<SampleInfo>, base: nat, ghost payloads: seq<Bytes>)
    returns (placed: seq<SampleInfo>, next: nat)
    requires |infos| == |payloads| && forall i :: 0 <= i < |infos| ==> infos[i].size == |payloads[i]|
    ensures LaidOut(placed, payloads, base) && next == base + |Concat(payloads)|
    ensures Planned(placed) == Planned(infos)
  {
    placed, next := [], base;
    for i := 0 to |infos|
      invariant |placed| == i && next == Position(base, payloads, i)
      invariant forall j :: 0 <= j < i ==>
                  placed[j] == infos[j].(fileOffset := Position(base, payloads, j))
    {
      ConcatGrows(payloads, i);
      placed := placed + [infos[i].(fileOffset := next)];
      next := next + infos[i].size;
    }
    assert payloads[..|payloads|] == payloads;
  }

  method WriteTrack(out: BufferedByteWriter, samples: seq<Bytes>, inMemory: bool) returns (ok: bool)
    requires out.Valid()
    modifies out, out.out
    ensures out.Valid() && (out.out.good ==> old(out.out.good))
    ensures ok && out.out.good ==> out.Pending() == old(out.Pending()) + Concat(samples)
  {
    ghost var base := out.Pending();
    assert base + [] == base;
    for i := 0 to |samples|
      invariant out.Valid() && (out.out.good ==> old(out.out.good))
      invariant out.out.good ==> out.Pending() == base + Concat(samples[..i])
    {
      ok := out.WritePacketRange(samples[i], inMemory, 0, |samples[i]|);
      if !ok { return; }
      ConcatGrows(samples, i);
      Regroup(base, Concat(samples[..i]), samples[i]);
    }
    assert samples[..|samples|] == samples;
    ok := true;
  }

  method WriteVideo(out: BufferedByteWriter, samples: seq<VideoSample>) returns (ok: bool)
    requires out.Valid()
    modifies out, out.out
    ensures out.Valid() && (out.out.good ==> old(out.out.good))
    ensures ok && out.out.good ==> out.Pending() == old(out.Pending()) + Concat(VideoPayloads(samples))
  {
    ghost var base, payloads := out.Pending(), VideoPayloads(samples);
    assert base + [] == base;
    for i := 0 to |samples|
      invariant out.Valid() && (out.out.good ==> old(out.out.good))
      invariant out.out.good ==> out.Pending() == base + Concat(payloads[..i])
    {
      ok := out.WriteAvccSample(samples[i].packet, samples[i].inMemory, samples[i].spans);
      if !ok { return; }
      ConcatGrows(payloads, i);
      Regroup(base, Concat(payloads[..i]), payloads[i]);
    }
    assert payloads[..|samples|] == payloads;
    ok := true;
  }

  method WriteAudio(out: BufferedByteWriter, tracks: seq<seq<Bytes>>, inMemory: bool) returns (ok: bool)
    requires out.Valid()
    modifies out, out.out
    ensures out.Valid() && (out.out.good ==> old(out.out.good))
    ensures ok && out.out.good ==> out.Pending() == old(out.Pending()) + Concat(Flatten(tracks))
  {
    ghost var base := out.Pending();
    assert base + [] == base;
    for i := 0 to |tracks|
      invariant out.Valid() && (out.out.good ==> old(out.out.good))
      invariant out.out.good ==> out.Pending() == base + Concat(Flatten(tracks[..i]))
    {
      ok := WriteTrack(out, tracks[i], inMemory);
      if !ok { return; }
      assert tracks[..i + 1][..i] == tracks[..i];
      ConcatSplits(Flatten(tracks[..i]), tracks[i]);
      Regroup(base, Concat(Flatten(tracks[..i])), Concat(tracks[i]));
    }
    assert tracks[..|tracks|] == tracks;
    ok := true;
  }

  /** Writes the whole file; success means every byte is in place, whatever the capacity. */
  method Mux(ftyp: Bytes, moov: Bytes, video: seq<VideoSample>, audio: seq<seq<Bytes>>,
             mediaSize: nat, capacity: nat, inMemory: bool)
    returns (file: FileWriter, ok: bool)
    requires mediaSize == |Concat(VideoPayloads(video) + Flatten(audio))|
    ensures fresh(file)
    ensures ok ==> file.contents == File(ftyp, VideoPayloads(video) + Flatten(audio), moov)
  {
    file := new FileWriter();
    var wrote := file.Write(ftyp);
    wrote := file.Write(MdatHeader(mediaSize));
    ghost var head := ftyp + MdatHeader(mediaSize);
    assert file.good ==> file.contents == head;
    var staged := new BufferedByteWriter(file, capacity);
    assert staged.Pending() == file.contents;
    var read := WriteVideo(staged, video);
    staged.Flush();
    ghost var media := Concat(VideoPayloads(video));
    assert read && file.good ==> staged.Pending() == head + media by {
      assert file.contents + [] == file.contents;
    }
    if read {
      read := WriteAudio(staged, audio, inMemory);
    }
    staged.Flush();
    ConcatSplits(VideoPayloads(video), Flatten(audio));
    Regroup(head, media, Concat(Flatten(audio)));
    assert read && file.good ==> file.contents == head + Concat(VideoPayloads(video) + Flatten(audio));
    wrote := file.Write(moov);
    ok := read && file.good;
  }
}
