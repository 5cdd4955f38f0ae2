/** Splitting an H.264 byte stream (Annex B of ITU-T H.264) into NAL units, as the packet
    analyzer and the muxer do, and rewriting it as length-prefixed samples (ISO/IEC 14496-15). */
module AnnexB {
  import opened Basics

  type Byte = x: int | 0 <= x < 256
  type Bytes = seq<Byte>

  const U32: int := 0x1_0000_0000
  const INLINE_CAPACITY: nat := 4

  /** The size of the start code at `i`, or 0. The three-byte form is tried first. */
  function StartCodeAt(d: Bytes, i: nat): (size: nat) {
    if i + 3 <= |d| && d[i] == 0 && d[i + 1] == 0 && d[i + 2] == 1 then 3
    else if i + 4 <= |d| && d[i] == 0 && d[i + 1] == 0 && d[i + 2] == 0 && d[i + 3] == 1 then 4
    else 0
  }

  /** The first start code at or after `i`. */
  function Find(d: Bytes, i: nat): (r: Option<nat>)
    ensures r.Some? ==> i <= r.value < |d| && StartCodeAt(d, r.value) > 0
    decreases |d| - i
  {
    if i + 3 > |d| then None
    else if StartCodeAt(d, i) > 0 then Some(i)
    else Find(d, i + 1)
  }

  lemma {:induction false} NothingBeforeFound(d: Bytes, i: nat, j: nat)
    requires i <= j && (Find(d, i).None? || j < Find(d, i).value)
    ensures StartCodeAt(d, j) == 0
    decreases |d| - i
  {
    if i < j && i + 3 <= |d| {
      NothingBeforeFound(d, i + 1, j);
    }
  }

  lemma {:induction false} FindIs(d: Bytes, i: nat, at: nat)
    requires i <= at && StartCodeAt(d, at) > 0
    requires forall j: nat :: i <= j < at ==> StartCodeAt(d, j) == 0
    ensures Find(d, i) == Some(at)
    decreases at - i
  {
    if i < at {
      FindIs(d, i + 1, at);
    }
  }

  lemma {:induction false} FindNothing(d: Bytes, i: nat)
    requires forall j: nat :: i <= j < |d| ==> StartCodeAt(d, j) == 0
    ensures Find(d, i) == None
    decreases |d| - i
  {
    if i < |d| {
      FindNothing(d, i + 1);
    }
  }

  datatype Span = Span(offset: nat, size: nat, kind: nat)

  /** The end of the NAL unit that starts at `start`. */
  function NalEnd(d: Bytes, start: nat): (end: nat)
    requires start <= |d|
    ensures start <= end <= |d|
  {
    var next := Find(d, start);
    if next.Some? then next.value else |d|
  }

  function SpanOf(d: Bytes, start: nat, end: nat): Span
    requires start < end <= |d|
  {
    Span(start, end - start, d[start] % 32)
  }

  /** The NAL unit that starts at `nal`, unless the data ends there. */
  function NalAt(d: Bytes, nal: nat): (r: Option<(nat, nat)>)
    ensures r.Some? ==> nal == r.value.0 <= r.value.1 <= |d| && r.value.0 < |d|
  {
    if nal >= |d| then None else Some((nal, NalEnd(d, nal)))
  }

  /** The start and end of the next NAL unit, possibly empty, from `offset` on. */
  function NextNal(d: Bytes, offset: nat): (r: Option<(nat, nat)>)
    ensures r.Some? ==> offset < r.value.0 <= r.value.1 <= |d| && r.value.0 < |d|
  {
    var start := Find(d, offset);
    if start.None? then None else NalAt(d, start.value + StartCodeAt(d, start.value))
  }

  function SpanIfAny(d: Bytes, start: nat, end: nat): seq<Span>
    requires start <= end <= |d|
  {
    if start < end then [SpanOf(d, start, end)] else []
  }

  /** The non-empty NAL units found from `offset` on. */
  function Parse(d: Bytes, offset: nat): seq<Span>
    decreases |d| - offset
  {
    match NextNal(d, offset)
    case None => []
    case Some((start, end)) => SpanIfAny(d, start, end) + Parse(d, end)
  }

  // --------------------------------------------------------------- the round trip

  /** A NAL unit and whether a four-byte start code precedes it. */
  datatype Nal = Nal(payload: Bytes, long: bool)

  function StartCode(long: bool): Bytes {
    if long then [0, 0, 0, 1] else [0, 0, 1]
  }

  function Stream(nals: seq<Nal>): Bytes {
    if nals == [] then [] else StartCode(nals[0].long) + (nals[0].payload + Stream(nals[1..]))
  }

  /** Where the units of a stream lie when it begins at `offset`. */
  function Spans(nals: seq<Nal>, offset: nat): seq<Span> {
    if nals == [] then []
    else
      var payload := nals[0].payload;
      var start := offset + |StartCode(nals[0].long)|;
      [Span(start, |payload|, if payload == [] then 0 else payload[0] % 32)]
      + Spans(nals[1..], start + |payload|)
  }

  predicate PrefixAt(payload: Bytes, i: nat) {
    i + 3 <= |payload| && payload[i] == 0 && payload[i + 1] == 0 && payload[i + 2] == 1
  }

  /** No three-byte start code inside. */
  ghost predicate HasNoStartCode(payload: Bytes) {
    forall i: nat :: !PrefixAt(payload, i)
  }

  /** What a unit must satisfy to be recovered before the units that follow it. */
  ghost predicate Separable(payload: Bytes, following: seq<Nal>) {
    && payload != [] && HasNoStartCode(payload)
    && (following != [] && !following[0].long ==> payload[|payload| - 1] != 0)
  }

  ghost predicate AllSeparable(nals: seq<Nal>) {
    nals == [] || (Separable(nals[0].payload, nals[1..]) && AllSeparable(nals[1..]))
  }

  /** The data from `offset` to the end is `s`. */
  ghost predicate Tail(d: Bytes, offset: nat, s: Bytes) {
    offset <= |d| && d[offset..] == s
  }

  /** The data at `offset` begins with `head`. */
  ghost predicate Written(d: Bytes, offset: nat, head: Bytes) {
    offset + |head| <= |d| && forall n :: offset <= n < offset + |head| ==> d[n] == head[n - offset]
  }

  lemma DropPrefix(d: Bytes, from: nat, s: Bytes, head: Bytes, rest: Bytes)
    requires Tail(d, from, s) && s == head + rest
    ensures Written(d, from, head) && Tail(d, from + |head|, rest)
  {
  }

  /** A code inside the unit or straddling its end spoils it, and nothing else does. */
  lemma StartsInUnit(d: Bytes, from: nat, payload: Bytes, following: seq<Nal>, i: nat)
    requires Tail(d, from, payload + Stream(following))
    requires from <= i < from + |payload| && payload != []
    requires Separable(payload, following)
    ensures StartCodeAt(d, i) == 0
  {
    var tail := Stream(following);
    DropPrefix(d, from, payload + tail, payload, tail);
    assert !PrefixAt(payload, i - from) && !PrefixAt(payload, i - from + 1);
    if following != [] {
      assert tail[0] == 0 && tail[1] == 0 && tail[2] == (if following[0].long then 0 else 1);
    }
  }

  lemma SpoiledUnitHasStart(d: Bytes, from: nat, payload: Bytes, following: seq<Nal>) returns (i: nat)
    requires Tail(d, from, payload + Stream(following))
    requires payload != [] && !Separable(payload, following)
    ensures from <= i < from + |payload| && StartCodeAt(d, i) > 0
  {
    var tail := Stream(following);
    DropPrefix(d, from, payload + tail, payload, tail);
    if !HasNoStartCode(payload) {
      var k: nat :| PrefixAt(payload, k);
      i := from + k;
    } else {
      assert tail[0] == 0 && tail[1] == 0 && tail[2] == 1;
      i := from + |payload| - 1;
    }
  }

  lemma CodeIsFound(d: Bytes, offset: nat, long: bool)
    requires Written(d, offset, StartCode(long))
    ensures StartCodeAt(d, offset) == |StartCode(long)| && Find(d, offset) == Some(offset)
  {
    assert d[offset] == 0 && d[offset + 1] == 0;
    assert d[offset + 2] == if long then 0 else 1;
  }

  lemma StreamStartsWithCode(d: Bytes, offset: nat, nals: seq<Nal>)
    requires Tail(d, offset, Stream(nals)) && nals != []
    ensures Find(d, offset) == Some(offset)
    ensures StartCodeAt(d, offset) == |StartCode(nals[0].long)|
    ensures Tail(d, offset + |StartCode(nals[0].long)|, nals[0].payload + Stream(nals[1..]))
  {
    DropPrefix(d, offset, Stream(nals), StartCode(nals[0].long), nals[0].payload + Stream(nals[1..]));
    CodeIsFound(d, offset, nals[0].long);
  }

  /** One unit is cut exactly at its end if and only if it is separable. */
  lemma UnitEndsWhereWritten(d: Bytes, from: nat, payload: Bytes, following: seq<Nal>)
    requires Tail(d, from, payload + Stream(following)) && payload != []
    ensures NalEnd(d, from) == from + |payload| <==> Separable(payload, following)
  {
    var end := from + |payload|;
    if Separable(payload, following) {
      forall i: nat | from <= i < end
        ensures StartCodeAt(d, i) == 0
      {
        StartsInUnit(d, from, payload, following, i);
      }
      DropPrefix(d, from, payload + Stream(following), payload, Stream(following));
      if following != [] {
        StreamStartsWithCode(d, end, following);
        FindIs(d, from, end);
      } else {
        FindNothing(d, from);
      }
    } else {
      var i := SpoiledUnitHasStart(d, from, payload, following);
      if NalEnd(d, from) == end {
        NothingBeforeFound(d, from, i);
      }
    }
  }

  lemma {:induction false} ParsedSpansFit(d: Bytes, offset: nat, k: nat)
    requires k < |Parse(d, offset)|
    ensures var span := Parse(d, offset)[k];
            span.size > 0 && offset < span.offset && span.offset + span.size <= |d|
    decreases |d| - offset
  {
    var (start, end) := NextNal(d, offset).value;
    var first := SpanIfAny(d, start, end);
    if k >= |first| {
      ParsedSpansFit(d, end, k - |first|);
    }
  }

  ghost predicate IsCons<T>(p: seq<T>, x: T, a: seq<T>) {
    p == [x] + a
  }

  lemma SameHeads<T>(p: seq<T>, q: seq<T>, x: T, y: T, a: seq<T>, b: seq<T>)
    requires IsCons(p, x, a) && IsCons(q, y, b)
    ensures p == q <==> x == y && a == b
  {
    assert p[0] == x && q[0] == y;
    assert p[1..] == a && q[1..] == b;
  }

  lemma FirstParsed(d: Bytes, offset: nat, nals: seq<Nal>)
    requires Tail(d, offset, Stream(nals)) && nals != []
    ensures var from := offset + |StartCode(nals[0].long)|;
            && Tail(d, from, nals[0].payload + Stream(nals[1..]))
            && (NalEnd(d, from) > from ==>
                  IsCons(Parse(d, offset), SpanOf(d, from, NalEnd(d, from)), Parse(d, NalEnd(d, from))))
  {
    StreamStartsWithCode(d, offset, nals);
    FirstCut(d, offset, offset + |StartCode(nals[0].long)|);
  }

  lemma NextIs(d: Bytes, offset: nat, from: nat)
    requires Find(d, offset) == Some(offset) && offset + StartCodeAt(d, offset) == from < |d|
    ensures NextNal(d, offset) == Some((from, NalEnd(d, from)))
  {
    assert NextNal(d, offset) == NalAt(d, from);
  }

  lemma FirstCut(d: Bytes, offset: nat, from: nat)
    requires Find(d, offset) == Some(offset) && offset + StartCodeAt(d, offset) == from <= |d|
    ensures from < NalEnd(d, from) ==>
              IsCons(Parse(d, offset), SpanOf(d, from, NalEnd(d, from)), Parse(d, NalEnd(d, from)))
  {
    if from < |d| {
      NextIs(d, offset, from);
      ParsesNext(d, offset, from, NalEnd(d, from));
    }
  }

  lemma ParsesNext(d: Bytes, offset: nat, start: nat, end: nat)
    requires NextNal(d, offset) == Some((start, end))
    ensures start < end ==> IsCons(Parse(d, offset), SpanOf(d, start, end), Parse(d, end))
  {
    assert start < end ==> SpanIfAny(d, start, end) == [SpanOf(d, start, end)];
  }

  lemma FirstSpan(d: Bytes, from: nat, nals: seq<Nal>, offset: nat, end: nat)
    requires nals != [] && from == offset + |StartCode(nals[0].long)| && end == from + |nals[0].payload|
    requires nals[0].payload != [] && Tail(d, from, nals[0].payload + Stream(nals[1..]))
    ensures end <= |d| && IsCons(Spans(nals, offset), SpanOf(d, from, end), Spans(nals[1..], end))
  {
    DropPrefix(d, from, nals[0].payload + Stream(nals[1..]), nals[0].payload, Stream(nals[1..]));
  }

  /** With the rest settled, a written unit is the first parsed one exactly if it is separable. */
  lemma FirstUnitDecides(d: Bytes, offset: nat, nals: seq<Nal>, from: nat, cut: nat, end: nat)
    requires nals != [] && from < cut <= |d| && from < end <= |d|
    requires IsCons(Parse(d, offset), SpanOf(d, from, cut), Parse(d, cut))
    requires IsCons(Spans(nals, offset), SpanOf(d, from, end), Spans(nals[1..], end))
    requires cut == end <==> Separable(nals[0].payload, nals[1..])
    requires Parse(d, end) == Spans(nals[1..], end) <==> AllSeparable(nals[1..])
    ensures Parse(d, offset) == Spans(nals, offset) <==> AllSeparable(nals)
  {
    SameHeads(Parse(d, offset), Spans(nals, offset), SpanOf(d, from, cut), SpanOf(d, from, end),
              Parse(d, cut), Spans(nals[1..], end));
  }

  lemma {:induction false} ParseFrom(d: Bytes, offset: nat, nals: seq<Nal>)
    requires Tail(d, offset, Stream(nals))
    ensures Parse(d, offset) == Spans(nals, offset) <==> AllSeparable(nals)
    decreases |nals|
  {
    if nals == [] {
      NothingPastTheEnd(d, offset);
      return;
    }
    FirstParsed(d, offset, nals);
    var from := offset + |StartCode(nals[0].long)|;
    var end := from + |nals[0].payload|;
    DropPrefix(d, from, nals[0].payload + Stream(nals[1..]), nals[0].payload, Stream(nals[1..]));
    ParseFrom(d, end, nals[1..]);
    UnitSettles(d, offset, nals, from, end);
  }

  lemma UnitSettles(d: Bytes, offset: nat, nals: seq<Nal>, from: nat, end: nat)
    requires Tail(d, offset, Stream(nals)) && nals != []
    requires from == offset + |StartCode(nals[0].long)| && end == from + |nals[0].payload|
    requires Tail(d, from, nals[0].payload + Stream(nals[1..]))
    requires Parse(d, end) == Spans(nals[1..], end) <==> AllSeparable(nals[1..])
    ensures Parse(d, offset) == Spans(nals, offset) <==> AllSeparable(nals)
  {
    if nals[0].payload == [] || NalEnd(d, from) == from {
      UnitIsMissing(d, offset, nals, from);
    } else {
      FirstParsed(d, offset, nals);
      FirstSpan(d, from, nals, offset, end);
      UnitEndsWhereWritten(d, from, nals[0].payload, nals[1..]);
      FirstUnitDecides(d, offset, nals, from, NalEnd(d, from), end);
    }
  }

  lemma FirstWritten(nals: seq<Nal>, offset: nat)
    requires nals != []
    ensures Spans(nals, offset) != []
    ensures Spans(nals, offset)[0].offset == offset + |StartCode(nals[0].long)|
    ensures Spans(nals, offset)[0].size == |nals[0].payload|
  {
  }

  lemma CutUnitIsSkipped(d: Bytes, offset: nat, nals: seq<Nal>, from: nat)
    requires Tail(d, offset, Stream(nals)) && nals != [] && from == offset + |StartCode(nals[0].long)|
    requires from < |d| && NalEnd(d, from) == from
    ensures Parse(d, offset) == Parse(d, from)
  {
    StreamStartsWithCode(d, offset, nals);
    assert NextNal(d, offset) == Some((from, from));
    assert [] + Parse(d, from) == Parse(d, from);
  }

  /** An empty unit, or one cut at its first byte, is not among the parsed ones. */
  lemma UnitIsMissing(d: Bytes, offset: nat, nals: seq<Nal>, from: nat)
    requires Tail(d, offset, Stream(nals)) && nals != [] && from == offset + |StartCode(nals[0].long)|
    requires Tail(d, from, nals[0].payload + Stream(nals[1..]))
    requires nals[0].payload == [] || NalEnd(d, from) == from
    ensures Parse(d, offset) != Spans(nals, offset) && !AllSeparable(nals)
  {
    FirstWritten(nals, offset);
    if nals[0].payload != [] {
      UnitEndsWhereWritten(d, from, nals[0].payload, nals[1..]);
      CutUnitIsSkipped(d, offset, nals, from);
      if Parse(d, from) != [] {
        ParsedSpansFit(d, from, 0);
      }
    } else if Parse(d, offset) != [] {
      ParsedSpansFit(d, offset, 0);
    }
  }

  /** The parser recovers exactly the written units if and only if every unit is non-empty,
      holds no start code, and does not end in a zero byte before a three-byte start code. */
  lemma ParseRoundTrip(nals: seq<Nal>)
    ensures Parse(Stream(nals), 0) == Spans(nals, 0) <==> AllSeparable(nals)
  {
    ParseFrom(Stream(nals), 0, nals);
  }

  /** The constraint of section 7.4.1 of ITU-T H.264: no start code prefix inside a unit and
      no trailing zero byte. */
  ghost predicate Conforming(payload: Bytes) {
    payload != [] && HasNoStartCode(payload) && payload[|payload| - 1] != 0
  }

  lemma {:induction false} ConformingUnitsRoundTrip(nals: seq<Nal>)
    requires forall nal <- nals :: Conforming(nal.payload)
    ensures AllSeparable(nals)
    ensures Parse(Stream(nals), 0) == Spans(nals, 0)
  {
    if nals != [] {
      ConformingUnitsRoundTrip(nals[1..]);
    }
    ParseRoundTrip(nals);
  }

  // ------------------------------------------------------------------ the parsers

  method FindStartCode(d: Bytes, offset: nat) returns (at: Option<nat>, size: nat)
    ensures at == Find(d, offset)
    ensures at.Some? ==> size == StartCodeAt(d, at.value)
  {
    var i := offset;
    while i + 3 <= |d|
      invariant i >= offset
      invariant Find(d, offset) == Find(d, i)
    {
      size := StartCodeAt(d, i);
      if size > 0 { return Some(i), size; }
      i := i + 1;
    }
    return None, 0;
  }

  /** A span as the muxer stores it, in 32-bit fields. */
  function Narrowed(span: Span): Span {
    Span(span.offset % U32, span.size % U32, span.kind)
  }

  function NarrowedAll(spans: seq<Span>): seq<Span> {
    seq(|spans|, i requires 0 <= i < |spans| => Narrowed(spans[i]))
  }

  lemma NothingPastTheEnd(d: Bytes, offset: nat)
    requires offset >= |d|
    ensures NextNal(d, offset) == None && Parse(d, offset) == []
  {
  }

  // The next unit, searched for with the loop above.
  method FindNextNal(d: Bytes, offset: nat) returns (r: Option<(nat, nat)>)
    ensures r == NextNal(d, offset)
  {
    var start, startSize := FindStartCode(d, offset);
    if start.None? { return None; }
    var nal := start.value + startSize;
    if nal >= |d| { return None; }
    var next, _ := FindStartCode(d, nal);
    return Some((nal, if next.Some? then next.value else |d|));
  }

  /** `done` are the units found before `offset`. */
  ghost predicate Progress(d: Bytes, done: seq<Span>, offset: nat) {
    Parse(d, 0) == done + Parse(d, offset)
  }

  lemma ParseStep(d: Bytes, done: seq<Span>, offset: nat)
    requires Progress(d, done, offset)
    ensures match NextNal(d, offset)
            case None => Parse(d, 0) == done
            case Some((start, end)) => Progress(d, done + SpanIfAny(d, start, end), end)
  {
    if NextNal(d, offset).Some? {
      var (start, end) := NextNal(d, offset).value;
      var a, b, c := done, SpanIfAny(d, start, end), Parse(d, end);
      assert Parse(d, offset) == b + c;
      assert a + (b + c) == (a + b) + c;
    } else {
      assert done + [] == done;
    }
  }

  lemma NarrowedAppend(a: seq<Span>, b: seq<Span>)
    ensures NarrowedAll(a + b) == NarrowedAll(a) + NarrowedAll(b)
  {
  }

  // The muxer's own parser.
  method ParseAnnexBNalus(d: Bytes) returns (nalus: seq<Span>)
    ensures nalus == NarrowedAll(Parse(d, 0))
  {
    nalus := [];
    var offset := 0;
    ghost var done: seq<Span> := [];
    while offset < |d|
      invariant Progress(d, done, offset) && nalus == NarrowedAll(done)
      decreases |d| - offset
    {
      ParseStep(d, done, offset);
      var next := FindNextNal(d, offset);
      if next.None? { return; }
      var (nal, end) := next.value;
      if end > nal {
        NarrowedAppend(done, [SpanOf(d, nal, end)]);
        nalus := nalus + [Narrowed(SpanOf(d, nal, end))];
      }
      done := done + SpanIfAny(d, nal, end);
      offset := end;
    }
    ParseStep(d, done, offset);
  }

  datatype Layout = Layout(
    inlineNalus: seq<Span>, overflowNalus: seq<Span>, avccSampleSize: nat,
    hasIdr: bool, hasSps: bool, hasPps: bool, hasAud: bool)

  const EMPTY_LAYOUT := Layout([], [], 0, false, false, false, false)

  predicate IsParameterSet(kind: nat) {
    kind == 7 || kind == 8 || kind == 9
  }

  predicate HasKind(spans: seq<Span>, kind: nat) {
    exists i :: 0 <= i < |spans| && spans[i].kind == kind
  }

  /** The units that go into a sample. */
  function Writable(spans: seq<Span>): seq<Span> {
    if spans == [] then []
    else
      var last := spans[|spans| - 1];
      Writable(spans[..|spans| - 1]) + if IsParameterSet(last.kind) then [] else [last]
  }

  /** The size of the length-prefixed sample made of these units. */
  function AvccSize(spans: seq<Span>): nat {
    if spans == [] then 0 else AvccSize(spans[..|spans| - 1]) + 4 + spans[|spans| - 1].size
  }

  lemma WritableAppend(spans: seq<Span>, span: Span)
    ensures Writable(spans + [span]) == Writable(spans) + if IsParameterSet(span.kind) then [] else [span]
    ensures AvccSize(spans + [span]) == AvccSize(spans) + 4 + span.size
  {
    assert (spans + [span])[..|spans|] == spans;
  }

  lemma WritableSize(spans: seq<Span>, span: Span)
    ensures AvccSize(Writable(spans + [span]))
         == AvccSize(Writable(spans)) + if IsParameterSet(span.kind) then 0 else 4 + span.size
  {
    WritableAppend(spans, span);
    if IsParameterSet(span.kind) {
      assert Writable(spans) + [] == Writable(spans);
    } else {
      WritableAppend(Writable(spans), span);
    }
  }

  /** A layout that records `spans`: the first four inline, the rest in the overflow list. */
  ghost predicate Records(layout: Layout, spans: seq<Span>) {
    && layout.inlineNalus + layout.overflowNalus == spans
    && |layout.inlineNalus| <= INLINE_CAPACITY
    && (layout.overflowNalus != [] ==> |layout.inlineNalus| == INLINE_CAPACITY)
    && layout.hasIdr == HasKind(spans, 5) && layout.hasSps == HasKind(spans, 7)
    && layout.hasPps == HasKind(spans, 8) && layout.hasAud == HasKind(spans, 9)
  }

  function Recorded(layout: Layout, nal: Span): Layout {
    layout.(inlineNalus := if |layout.inlineNalus| < INLINE_CAPACITY then layout.inlineNalus + [nal] else layout.inlineNalus,
            overflowNalus := if |layout.inlineNalus| < INLINE_CAPACITY then layout.overflowNalus else layout.overflowNalus + [nal],
            hasIdr := layout.hasIdr || nal.kind == 5, hasSps := layout.hasSps || nal.kind == 7,
            hasPps := layout.hasPps || nal.kind == 8, hasAud := layout.hasAud || nal.kind == 9)
  }

  lemma RecordOne(layout: Layout, spans: seq<Span>, nal: Span)
    requires Records(layout, spans)
    ensures Records(Recorded(layout, nal), spans + [nal])
  {
    forall kind: nat
      ensures HasKind(spans + [nal], kind) <==> HasKind(spans, kind) || nal.kind == kind
    {
      if HasKind(spans, kind) {
        var i :| 0 <= i < |spans| && spans[i].kind == kind;
        assert (spans + [nal])[i].kind == kind;
      }
      assert (spans + [nal])[|spans|] == nal;
    }
  }

  // Adds one unit to the layout and to the sample size.
  method RecordSpan(layout: Layout, avccSize: nat, span: Span, ghost done: seq<Span>)
    returns (after: Layout, size: nat)
    requires Records(layout, done) && avccSize == AvccSize(Writable(done))
    ensures Records(after, done + [span]) && size == AvccSize(Writable(done + [span]))
    ensures after.avccSampleSize == layout.avccSampleSize
  {
    RecordOne(layout, done, span);
    WritableSize(done, span);
    after := Recorded(layout, span);
    size := if IsParameterSet(span.kind) then avccSize else avccSize + 4 + span.size;
  }

  // Records every unit of the data.
  method RecordUnits(d: Bytes) returns (layout: Layout, avccSize: nat)
    requires |d| < U32
    ensures Records(layout, Parse(d, 0)) && layout.avccSampleSize == 0
    ensures avccSize == AvccSize(Writable(Parse(d, 0)))
  {
    layout, avccSize := EMPTY_LAYOUT, 0;
    var offset := 0;
    ghost var done: seq<Span> := [];
    while offset < |d|
      invariant Progress(d, done, offset)
      invariant Records(layout, done) && layout.avccSampleSize == 0
      invariant avccSize == AvccSize(Writable(done))
      decreases |d| - offset
    {
      ParseStep(d, done, offset);
      var next := FindNextNal(d, offset);
      if next.None? { return; }
      var (nal, end) := next.value;
      if end > nal && end - nal < U32 {
        layout, avccSize := RecordSpan(layout, avccSize, SpanOf(d, nal, end), done);
      }
      done := done + SpanIfAny(d, nal, end);
      offset := end;
    }
    NothingPastTheEnd(d, offset);
    ParseStep(d, done, offset);
  }

  // The packet analyzer. It leaves the sample size at zero when it would not fit 32 bits.
  method AnalyzeH264Packet(d: Bytes) returns (found: bool, layout: Layout)
    ensures var spans := if |d| < U32 then Parse(d, 0) else [];
            && Records(layout, spans)
            && layout.avccSampleSize == (var size := AvccSize(Writable(spans)); if size < U32 then size else 0)
            && (found <==> spans != [])
  {
    layout := EMPTY_LAYOUT;
    if d == [] || |d| >= U32 {
      NothingPastTheEnd(d, |d|);
      return false, layout;
    }
    var avccSize: nat;
    layout, avccSize := RecordUnits(d);
    if avccSize < U32 {
      layout := layout.(avccSampleSize := avccSize);
    }
    found := |layout.inlineNalus| + |layout.overflowNalus| > 0;
  }

  // ------------------------------------------------------- length-prefixed samples

  function U32Bytes(n: nat): Bytes {
    [n / 256 / 256 / 256 % 256, n / 256 / 256 % 256, n / 256 % 256, n % 256]
  }

  function U32Value(b: Bytes): nat
    requires |b| == 4
  {
    var x0: int, x1: int, x2: int, x3: int := b[0], b[1], b[2], b[3];
    ((x0 * 256 + x1) * 256 + x2) * 256 + x3
  }

  function Payload(d: Bytes, span: Span): Bytes {
    if span.offset + span.size <= |d| then d[span.offset..span.offset + span.size] else []
  }

  function Payloads(d: Bytes, spans: seq<Span>): seq<Bytes> {
    seq(|spans|, i requires 0 <= i < |spans| => Payload(d, spans[i]))
  }

  /** Units, each after its length in four bytes. */
  function Prefixed(units: seq<Bytes>): Bytes {
    if units == [] then []
    else U32Bytes(|units[0]|) + (units[0] + Prefixed(units[1..]))
  }

  /** Reads a length-prefixed sample back. */
  function Unprefixed(b: Bytes): Option<seq<Bytes>> {
    if b == [] then Some([])
    else if |b| < 4 then None
    else
      var n := U32Value(b[..4]);
      if |b| < 4 + n then None
      else
        match Unprefixed(b[4 + n..])
        case None => None
        case Some(rest) => Some([b[4..4 + n]] + rest)
  }

  /** The first byte is the most significant. */
  lemma BigEndian(n: nat)
    requires n < U32
    ensures U32Bytes(n)[0] as int * 0x100_0000 + U32Bytes(n)[1] as int * 0x1_0000
            + U32Bytes(n)[2] as int * 0x100 + U32Bytes(n)[3] as int == n
  {
    U32RoundTrip(n);
  }

  lemma U32RoundTrip(n: nat)
    requires n < U32
    ensures U32Value(U32Bytes(n)) == n
  {
    var a := n / 256;
    var b := a / 256;
    var c := b / 256;
    assert n == a * 256 + n % 256 && a == b * 256 + a % 256 && b == c * 256 + b % 256;
  }

  lemma U32BytesOfValue(b: Bytes)
    requires |b| == 4
    ensures U32Value(b) < U32 && U32Bytes(U32Value(b)) == b
  {
    var x0: int, x1: int, x2: int, x3: int := b[0], b[1], b[2], b[3];
    var q2 := x0 * 256 + x1;
    var q1 := q2 * 256 + x2;
    var n := q1 * 256 + x3;
    assert n / 256 == q1 && n % 256 == x3;
    assert q1 / 256 == q2 && q1 % 256 == x2;
    assert q2 / 256 == x0 && q2 % 256 == x1;
  }

  lemma CutBack(b: Bytes, head: Bytes, unit: Bytes, rest: Bytes)
    requires b == head + (unit + rest)
    ensures b[..|head|] == head && b[|head|..|head| + |unit|] == unit && b[|head| + |unit|..] == rest
  {
  }

  lemma UnprefixOne(b: Bytes, unit: Bytes, rest: Bytes)
    requires b == U32Bytes(|unit|) + (unit + rest) && |unit| < U32
    ensures b != [] && Unprefixed(b) == match Unprefixed(rest)
                                         case None => None
                                         case Some(units) => Some([unit] + units)
  {
    U32RoundTrip(|unit|);
    CutBack(b, U32Bytes(|unit|), unit, rest);
  }

  /** Reading a written sample gives the units back. */
  lemma {:induction false} PrefixedRoundTrip(units: seq<Bytes>)
    requires forall unit <- units :: |unit| < U32
    ensures Unprefixed(Prefixed(units)) == Some(units)
  {
    if units != [] {
      UnprefixOne(Prefixed(units), units[0], Prefixed(units[1..]));
      PrefixedRoundTrip(units[1..]);
      assert [units[0]] + units[1..] == units;
    }
  }

  lemma Cut(b: Bytes, i: nat, j: nat)
    requires i <= j <= |b|
    ensures b == b[..i] + (b[i..j] + b[j..])
  {
  }

  /** And only one sample reads as given units. */
  lemma {:induction false} UnprefixedInverse(b: Bytes)
    requires Unprefixed(b).Some?
    ensures Prefixed(Unprefixed(b).value) == b
    decreases |b|
  {
    if b != [] {
      var n := U32Value(b[..4]);
      var unit, rest := b[4..4 + n], b[4 + n..];
      U32BytesOfValue(b[..4]);
      UnprefixedInverse(rest);
      Cut(b, 4, 4 + n);
      PrefixedCons(unit, Unprefixed(rest).value);
    }
  }

  lemma PrefixedCons(unit: Bytes, units: seq<Bytes>)
    ensures Prefixed([unit] + units) == U32Bytes(|unit|) + (unit + Prefixed(units))
  {
    assert ([unit] + units)[1..] == units;
  }

  lemma {:induction false} PrefixedAppend(units: seq<Bytes>, unit: Bytes)
    ensures Prefixed(units + [unit]) == Prefixed(units) + (U32Bytes(|unit|) + unit)
  {
    var last := U32Bytes(|unit|) + unit;
    if units == [] {
      assert units + [unit] == [unit];
      assert unit + Prefixed([]) == unit;
      assert [] + last == last;
    } else {
      assert (units + [unit])[1..] == units[1..] + [unit];
      PrefixedAppend(units[1..], unit);
      Regroup(units[0], Prefixed(units[1..]), last);
      Regroup(U32Bytes(|units[0]|), units[0] + Prefixed(units[1..]), last);
    }
  }

  lemma PayloadsAppend(d: Bytes, spans: seq<Span>, i: nat)
    requires i < |spans|
    ensures Payloads(d, spans[..i + 1]) == Payloads(d, spans[..i]) + [Payload(d, spans[i])]
  {
  }

  lemma {:induction false} PrefixedSize(d: Bytes, spans: seq<Span>)
    requires forall span <- spans :: span.offset + span.size <= |d|
    ensures |Prefixed(Payloads(d, spans))| == AvccSize(spans)
  {
    if spans != [] {
      var n := |spans| - 1;
      assert forall span <- spans[..n] :: span in spans;
      PrefixedSize(d, spans[..n]);
      PrefixedAppend(Payloads(d, spans[..n]), Payload(d, spans[n]));
      assert Payloads(d, spans) == Payloads(d, spans[..n]) + [Payload(d, spans[n])];
    }
  }

  lemma {:induction false} WritableFrom(spans: seq<Span>)
    ensures forall span <- Writable(spans) :: span in spans && !IsParameterSet(span.kind)
  {
    if spans != [] {
      WritableFrom(spans[..|spans| - 1]);
    }
  }

  /** A unit's type, from the low five bits of its first byte. */
  function UnitType(unit: Bytes): nat {
    if unit == [] then 0 else unit[0] as nat % 32
  }

  /** The units a sample carries: parameter sets (7, 8) and delimiters (9) travel elsewhere. */
  function SampleUnits(units: seq<Bytes>): seq<Bytes> {
    if units == [] then []
    else
      var last := units[|units| - 1];
      SampleUnits(units[..|units| - 1]) + if 7 <= UnitType(last) <= 9 then [] else [last]
  }

  /** Every span's kind is the type of the unit it covers. */
  ghost predicate Typed(d: Bytes, spans: seq<Span>) {
    forall span <- spans :: span.kind == UnitType(Payload(d, span))
  }

  lemma {:induction false} ParsedAreTyped(d: Bytes, offset: nat)
    ensures Typed(d, Parse(d, offset))
    decreases |d| - offset
  {
    var next := NextNal(d, offset);
    if next.Some? {
      var (start, end) := next.value;
      ParsedAreTyped(d, end);
      forall span <- SpanIfAny(d, start, end)
        ensures span.kind == UnitType(Payload(d, span))
      {
        assert d[start..end][0] == d[start];
      }
    }
  }

  lemma PayloadsSplit(d: Bytes, spans: seq<Span>)
    requires spans != []
    ensures var n := |spans| - 1;
            Payloads(d, spans)[..n] == Payloads(d, spans[..n]) && Payloads(d, spans)[n] == Payload(d, spans[n])
  {
  }

  lemma PayloadsJoin(d: Bytes, spans: seq<Span>, span: Span)
    ensures Payloads(d, spans + [span]) == Payloads(d, spans) + [Payload(d, span)]
  {
  }

  lemma {:induction false} WritableAreSampleUnits(d: Bytes, spans: seq<Span>)
    requires Typed(d, spans)
    ensures Payloads(d, Writable(spans)) == SampleUnits(Payloads(d, spans))
  {
    if spans != [] {
      var n := |spans| - 1;
      assert spans[n] in spans && forall span <- spans[..n] :: span in spans;
      WritableAreSampleUnits(d, spans[..n]);
      PayloadsSplit(d, spans);
      PayloadsJoin(d, Writable(spans[..n]), spans[n]);
      assert Writable(spans[..n]) + [] == Writable(spans[..n]);
    }
  }

  /** What goes into a packet's sample are its units of the other types, in order. */
  lemma WritableByType(d: Bytes)
    ensures Payloads(d, Writable(Parse(d, 0))) == SampleUnits(Payloads(d, Parse(d, 0)))
  {
    ParsedAreTyped(d, 0);
    WritableAreSampleUnits(d, Parse(d, 0));
  }

  function UnitsOf(nals: seq<Nal>): seq<Bytes> {
    seq(|nals|, i requires 0 <= i < |nals| => nals[i].payload)
  }

  lemma CutTail(d: Bytes, offset: nat, a: Bytes, b: Bytes)
    requires Tail(d, offset, a + b)
    ensures offset + |a| <= |d| && d[offset..offset + |a|] == a && Tail(d, offset + |a|, b)
  {
    assert d[offset..][..|a|] == a && d[offset..][|a|..] == b;
  }

  lemma CoverFirst(d: Bytes, span: Span, spans: seq<Span>, unit: Bytes, units: seq<Bytes>)
    requires Payload(d, span) == unit && Payloads(d, spans) == units
    ensures Payloads(d, [span] + spans) == [unit] + units
  {
  }

  lemma UnitsOfFirst(nals: seq<Nal>)
    requires nals != []
    ensures UnitsOf(nals) == [nals[0].payload] + UnitsOf(nals[1..])
  {
  }

  lemma {:induction false} FirstSpanCovers(d: Bytes, nals: seq<Nal>, offset: nat)
    requires nals != [] && Tail(d, offset, Stream(nals))
    ensures var start := offset + |StartCode(nals[0].long)|;
            && Tail(d, start + |nals[0].payload|, Stream(nals[1..]))
            && Spans(nals, offset) == [Spans(nals, offset)[0]] + Spans(nals[1..], start + |nals[0].payload|)
            && Payload(d, Spans(nals, offset)[0]) == nals[0].payload
  {
    var code, payload, rest := StartCode(nals[0].long), nals[0].payload, Stream(nals[1..]);
    CutTail(d, offset, code, payload + rest);
    CutTail(d, offset + |code|, payload, rest);
  }

  lemma {:induction false} SpansCoverUnits(d: Bytes, nals: seq<Nal>, offset: nat)
    requires Tail(d, offset, Stream(nals))
    ensures Payloads(d, Spans(nals, offset)) == UnitsOf(nals)
    decreases |nals|
  {
    if nals != [] {
      var start := offset + |StartCode(nals[0].long)|;
      var next := start + |nals[0].payload|;
      FirstSpanCovers(d, nals, offset);
      SpansCoverUnits(d, nals[1..], next);
      CoverFirst(d, Spans(nals, offset)[0], Spans(nals[1..], next), nals[0].payload, UnitsOf(nals[1..]));
      UnitsOfFirst(nals);
    }
  }

  /** A stream of separable units is taken apart into those units. */
  lemma SeparableUnitsComeBack(nals: seq<Nal>)
    requires AllSeparable(nals)
    ensures Payloads(Stream(nals), Parse(Stream(nals), 0)) == UnitsOf(nals)
  {
    ParseRoundTrip(nals);
    SpansCoverUnits(Stream(nals), nals, 0);
  }

  /** The planned size of a packet's sample is its length. */
  lemma PlannedSize(d: Bytes)
    ensures |Prefixed(Payloads(d, Writable(Parse(d, 0))))| == AvccSize(Writable(Parse(d, 0)))
  {
    var spans := Writable(Parse(d, 0));
    WritableFrom(Parse(d, 0));
    forall span | span in spans
      ensures span.offset + span.size <= |d|
    {
      var k :| 0 <= k < |Parse(d, 0)| && Parse(d, 0)[k] == span;
      ParsedSpansFit(d, 0, k);
    }
    PrefixedSize(d, spans);
  }

  /** A sample written from a packet is as long as the analyzer's planned size and reads back
      as the packet's units without parameter sets and delimiters. */
  lemma SampleReadsBack(d: Bytes)
    requires |d| < U32
    ensures var units := Payloads(d, Writable(Parse(d, 0)));
            && |Prefixed(units)| == AvccSize(Writable(Parse(d, 0)))
            && Unprefixed(Prefixed(units)) == Some(units)
  {
    PlannedSize(d);
    PrefixedRoundTrip(Payloads(d, Writable(Parse(d, 0))));
  }

  /** Within 32 bits the muxer's parser and the analyzer find the same units. */
  lemma NarrowingIsHarmless(d: Bytes)
    requires |d| < U32
    ensures NarrowedAll(Parse(d, 0)) == Parse(d, 0)
  {
    var spans := Parse(d, 0);
    forall k | 0 <= k < |spans|
      ensures Narrowed(spans[k]) == spans[k]
    {
      ParsedSpansFit(d, 0, k);
      NarrowFits(spans[k]);
    }
  }

  lemma NarrowFits(span: Span)
    requires span.offset < U32 && span.size < U32
    ensures Narrowed(span) == span
  {
  }
}
