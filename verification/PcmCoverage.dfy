/** Choosing the PCM samples that a track's AAC does not already cover, in one pass over both. */
module PcmCoverage {
  import opened Basics

  const MERGE_GAP: int := 50_000
  const SLACK: int := 10_000

  datatype Span = Span(start: int, end: int)

  ghost predicate Ordered(spans: seq<Span>) {
    && (forall i :: 0 <= i < |spans| ==> spans[i].start <= spans[i].end)
    && (forall i, j :: 0 <= i < j < |spans| ==> spans[i].start <= spans[j].start)
  }

  /** Merged intervals lie more than the merge gap apart. */
  ghost predicate Apart(spans: seq<Span>) {
    && (forall i :: 0 <= i < |spans| ==> spans[i].start <= spans[i].end)
    && (forall i, j :: 0 <= i < j < |spans| ==> spans[i].end + MERGE_GAP < spans[j].start)
  }

  ghost predicate Inside(inner: Span, outer: Span) {
    outer.start <= inner.start && inner.end <= outer.end
  }

  /** Adds a sample: near the last interval it extends that one. */
  function Extended(front: seq<Span>, next: Span): seq<Span> {
    if front != [] && next.start <= front[|front| - 1].end + MERGE_GAP then
      front[|front| - 1 := Span(front[|front| - 1].start, Max(front[|front| - 1].end, next.end))]
    else front + [next]
  }

  function Merged(aac: seq<Span>): seq<Span> {
    if aac == [] then [] else Extended(Merged(aac[..|aac| - 1]), aac[|aac| - 1])
  }

  lemma ExtendedIsApart(front: seq<Span>, next: Span)
    requires Apart(front) && next.start <= next.end
    requires front != [] ==> front[|front| - 1].start <= next.start
    ensures Apart(Extended(front, next)) && Extended(front, next) != []
    ensures Extended(front, next)[|Extended(front, next)| - 1].start <= next.start
  {
  }

  /** Merging sorted samples gives intervals that lie apart. */
  lemma {:induction false} MergedIsApart(aac: seq<Span>)
    requires Ordered(aac)
    ensures Apart(Merged(aac))
    ensures aac != [] ==> Merged(aac) != [] && Merged(aac)[|Merged(aac)| - 1].start <= aac[|aac| - 1].start
  {
    if aac != [] {
      var n := |aac| - 1;
      MergedIsApart(aac[..n]);
      if n > 0 {
        assert aac[..n][n - 1].start <= aac[n].start;
      }
      ExtendedIsApart(Merged(aac[..n]), aac[n]);
    }
  }

  /** Some interval contains the span. */
  ghost predicate Within(span: Span, intervals: seq<Span>) {
    exists k :: 0 <= k < |intervals| && Inside(span, intervals[k])
  }

  lemma ExtendedKeepsWithin(span: Span, front: seq<Span>, next: Span)
    requires Within(span, front)
    ensures Within(span, Extended(front, next))
  {
    var k :| 0 <= k < |front| && Inside(span, front[k]);
    assert Inside(span, Extended(front, next)[k]);
  }

  /** And no sample's coverage is lost. */
  lemma {:induction false} MergedCoversSamples(aac: seq<Span>, i: nat)
    requires Ordered(aac) && i < |aac|
    ensures Within(aac[i], Merged(aac))
  {
    var n := |aac| - 1;
    var front := Merged(aac[..n]);
    if i < n {
      MergedCoversSamples(aac[..n], i);
      ExtendedKeepsWithin(aac[i], front, aac[n]);
    } else {
      MergedIsApart(aac[..n]);
      if n > 0 {
        assert aac[..n][n - 1].start <= aac[n].start;
      }
      assert Inside(aac[n], Extended(front, aac[n])[|Extended(front, aac[n])| - 1]);
    }
  }

  /** A moment is in merged coverage only if a sample plays within the merge gap before it. */
  ghost predicate Backed(moment: int, aac: seq<Span>) {
    exists i :: 0 <= i < |aac| && aac[i].start <= moment <= aac[i].end + MERGE_GAP
  }

  ghost predicate EndsWithSample(end: int, aac: seq<Span>) {
    exists i :: 0 <= i < |aac| && aac[i].end == end
  }

  lemma LongerListEnds(end: int, front: seq<Span>, next: Span)
    requires EndsWithSample(end, front)
    ensures EndsWithSample(end, front + [next])
  {
    var i :| 0 <= i < |front| && front[i].end == end;
    assert (front + [next])[i].end == end;
  }

  lemma {:induction false} MergedEndsWithSample(aac: seq<Span>, k: nat)
    requires k < |Merged(aac)|
    ensures EndsWithSample(Merged(aac)[k].end, aac)
  {
    var n := |aac| - 1;
    assert aac == aac[..n] + [aac[n]];
    if Merged(aac)[k].end != aac[n].end {
      MergedEndsWithSample(aac[..n], k);
      LongerListEnds(Merged(aac)[k].end, aac[..n], aac[n]);
    }
  }

  lemma LongerListBacks(moment: int, front: seq<Span>, next: Span)
    requires Backed(moment, front)
    ensures Backed(moment, front + [next])
  {
    var i :| 0 <= i < |front| && front[i].start <= moment <= front[i].end + MERGE_GAP;
    assert (front + [next])[i] == front[i];
  }

  lemma EndBacks(end: int, aac: seq<Span>, moment: int)
    requires Ordered(aac) && EndsWithSample(end, aac) && end < moment <= end + MERGE_GAP
    ensures Backed(moment, aac)
  {
    var i :| 0 <= i < |aac| && aac[i].end == end;
    assert aac[i].start <= moment <= aac[i].end + MERGE_GAP;
  }

  lemma {:induction false} MergedAddsOnlyGaps(aac: seq<Span>, k: nat, moment: int)
    requires Ordered(aac) && k < |Merged(aac)|
    requires Merged(aac)[k].start <= moment <= Merged(aac)[k].end
    ensures Backed(moment, aac)
  {
    var n := |aac| - 1;
    var front, last := Merged(aac[..n]), aac[n];
    assert aac == aac[..n] + [last];
    if k < |front| && front[k].start <= moment <= front[k].end {
      MergedAddsOnlyGaps(aac[..n], k, moment);
      LongerListBacks(moment, aac[..n], last);
    } else if moment < last.start {
      MergedEndsWithSample(aac[..n], k);
      EndBacks(front[k].end, aac[..n], moment);
      LongerListBacks(moment, aac[..n], last);
    } else {
      assert aac[n].start <= moment <= aac[n].end + MERGE_GAP;
    }
  }

  /** What the single pass means by covered: the first interval that does not end before the
      sample has it within a millisecond. */
  ghost predicate CoveredBySweep(sample: Span, coverage: seq<Span>) {
    exists k :: 0 <= k < |coverage| && coverage[k].end >= sample.start && Contains(coverage[k], sample)
  }

  predicate Contains(interval: Span, sample: Span) {
    interval.start <= sample.start + SLACK && interval.end + SLACK >= sample.end
  }

  /** The naive test. */
  ghost predicate Covered(sample: Span, coverage: seq<Span>) {
    exists k :: 0 <= k < |coverage| && Contains(coverage[k], sample)
  }

  /** For samples of at least the slack the pass agrees with the naive test, because merged
      intervals lie far enough apart. */
  lemma SweepIsExact(sample: Span, coverage: seq<Span>)
    requires Apart(coverage) && sample.end - sample.start >= SLACK
    ensures CoveredBySweep(sample, coverage) <==> Covered(sample, coverage)
  {
    if Covered(sample, coverage) {
      var k :| 0 <= k < |coverage| && Contains(coverage[k], sample);
      assert coverage[k].end >= sample.start;
    }
  }

  /** A shorter sample can lie within the slack behind an interval and still be selected. */
  lemma ShortSampleCanDiffer()
    ensures var sample, coverage := Span(5_000, 9_000), [Span(0, 4_000)];
            Covered(sample, coverage) && !CoveredBySweep(sample, coverage)
  {
    assert Contains([Span(0, 4_000)][0], Span(5_000, 9_000));
  }

  /** An interval that ends before the sample begins, but within the slack of the sample's end. */
  ghost predicate EndsJustBefore(sample: Span, coverage: seq<Span>) {
    exists k :: 0 <= k < |coverage| && coverage[k].end < sample.start && coverage[k].end + SLACK >= sample.end
  }

  /** The two agree exactly when no interval ends just before the sample. */
  lemma SweepIsExactUnlessBehind(sample: Span, coverage: seq<Span>)
    requires Apart(coverage) && sample.start <= sample.end
    ensures (CoveredBySweep(sample, coverage) <==> Covered(sample, coverage))
            <==> !EndsJustBefore(sample, coverage)
  {
    if EndsJustBefore(sample, coverage) {
      var k :| 0 <= k < |coverage| && coverage[k].end < sample.start && coverage[k].end + SLACK >= sample.end;
      assert Contains(coverage[k], sample);
    } else if Covered(sample, coverage) {
      var k :| 0 <= k < |coverage| && Contains(coverage[k], sample);
      assert coverage[k].end >= sample.start;
    }
  }

  /** The samples a test rejects, in order. */
  ghost function Uncovered(pcm: seq<Span>, coverage: seq<Span>): seq<Span> {
    if pcm == [] then []
    else
      var n := |pcm| - 1;
      Uncovered(pcm[..n], coverage) + if CoveredBySweep(pcm[n], coverage) then [] else [pcm[n]]
  }

  ghost function NaivelyUncovered(pcm: seq<Span>, coverage: seq<Span>): seq<Span> {
    if pcm == [] then []
    else
      var n := |pcm| - 1;
      NaivelyUncovered(pcm[..n], coverage) + if Covered(pcm[n], coverage) then [] else [pcm[n]]
  }

  method MergeCoverage(aac: seq<Span>) returns (coverage: seq<Span>)
    ensures coverage == Merged(aac)
  {
    coverage := [];
    for n := 0 to |aac|
      invariant coverage == Merged(aac[..n])
    {
      assert aac[..n + 1][..n] == aac[..n];
      var last := |coverage| - 1;
      if coverage != [] && aac[n].start <= coverage[last].end + MERGE_GAP {
        coverage := coverage[last := Span(coverage[last].start, Max(coverage[last].end, aac[n].end))];
      } else {
        coverage := coverage + [aac[n]];
      }
    }
    assert aac[..|aac|] == aac;
  }

  lemma UncoveredAppend(pcm: seq<Span>, n: nat, coverage: seq<Span>)
    requires n < |pcm|
    ensures Uncovered(pcm[..n + 1], coverage)
         == Uncovered(pcm[..n], coverage) + if CoveredBySweep(pcm[n], coverage) then [] else [pcm[n]]
  {
    assert pcm[..n + 1][..n] == pcm[..n];
  }

  /** Only the interval the pass stops at can cover the sample. */
  lemma StopsAtTheOnlyChoice(sample: Span, coverage: seq<Span>, index: nat)
    requires Apart(coverage) && index <= |coverage|
    requires forall k :: 0 <= k < index ==> coverage[k].end < sample.start
    requires index < |coverage| ==> coverage[index].end >= sample.start
    ensures CoveredBySweep(sample, coverage) <==> index < |coverage| && Contains(coverage[index], sample)
  {
    if CoveredBySweep(sample, coverage) {
      var k :| 0 <= k < |coverage| && coverage[k].end >= sample.start && Contains(coverage[k], sample);
      assert k == index;
    }
  }

  // Moves the index to the first interval that does not end before the sample.
  method Advance(coverage: seq<Span>, from: nat, start: int) returns (index: nat)
    requires from <= |coverage|
    requires forall k :: 0 <= k < from ==> coverage[k].end < start
    ensures from <= index <= |coverage|
    ensures forall k :: 0 <= k < index ==> coverage[k].end < start
    ensures index < |coverage| ==> coverage[index].end >= start
  {
    index := from;
    while index < |coverage| && coverage[index].end < start
      invariant from <= index <= |coverage|
      invariant forall k :: 0 <= k < index ==> coverage[k].end < start
    {
      index := index + 1;
    }
  }

  /** The single pass: its index only ever moves forward. Without AAC every sample is missing. */
  method SelectUncoveredPcm(pcm: seq<Span>, aac: seq<Span>) returns (missing: seq<Span>)
    requires Ordered(pcm) && Ordered(aac)
    ensures aac == [] ==> missing == pcm
    ensures aac != [] ==> missing == Uncovered(pcm, Merged(aac))
  {
    if aac == [] { return pcm; }
    var coverage := MergeCoverage(aac);
    MergedIsApart(aac);
    missing := [];
    var index := 0;
    for n := 0 to |pcm|
      invariant index <= |coverage| && missing == Uncovered(pcm[..n], coverage)
      invariant forall k :: 0 <= k < index ==> n > 0 && coverage[k].end < pcm[n - 1].start
    {
      index := Advance(coverage, index, pcm[n].start);
      StopsAtTheOnlyChoice(pcm[n], coverage, index);
      UncoveredAppend(pcm, n, coverage);
      if !(index < |coverage| && Contains(coverage[index], pcm[n])) {
        missing := missing + [pcm[n]];
      }
    }
    assert pcm[..|pcm|] == pcm;
  }

  lemma {:induction false} SweepsAgree(pcm: seq<Span>, coverage: seq<Span>)
    requires Apart(coverage) && forall i :: 0 <= i < |pcm| ==> pcm[i].end - pcm[i].start >= SLACK
    ensures Uncovered(pcm, coverage) == NaivelyUncovered(pcm, coverage)
  {
    if pcm != [] {
      SweepsAgree(pcm[..|pcm| - 1], coverage);
      SweepIsExact(pcm[|pcm| - 1], coverage);
    }
  }

  /** So for samples of at least a millisecond it selects what the naive test rejects. */
  lemma SelectionIsExact(pcm: seq<Span>, aac: seq<Span>)
    requires Ordered(aac) && forall i :: 0 <= i < |pcm| ==> pcm[i].end - pcm[i].start >= SLACK
    ensures Uncovered(pcm, Merged(aac)) == NaivelyUncovered(pcm, Merged(aac))
  {
    MergedIsApart(aac);
    SweepsAgree(pcm, Merged(aac));
  }

  // ----------------------------------------------------- what the listener loses

  /** A sample is left out only if, but for a millisecond at each end, some AAC sample plays at
      every moment of it or ended at most 5 ms before. */
  lemma LeftOutIsHeard(sample: Span, aac: seq<Span>, moment: int)
    requires Ordered(aac) && CoveredBySweep(sample, Merged(aac))
    requires sample.start + 10_000 <= moment <= sample.end - 10_000
    ensures exists i :: 0 <= i < |aac| && aac[i].start <= moment <= aac[i].end + 50_000
  {
    var coverage := Merged(aac);
    var k :| 0 <= k < |coverage| && coverage[k].end >= sample.start && Contains(coverage[k], sample);
    MergedAddsOnlyGaps(aac, k, moment);
  }

  /** A sample of at least a millisecond is left out if one AAC sample plays through it, but for
      a millisecond at each end. */
  lemma PlayedThroughIsLeftOut(sample: Span, aac: seq<Span>, i: nat)
    requires Ordered(aac) && i < |aac| && sample.end - sample.start >= 10_000
    requires aac[i].start <= sample.start + 10_000 && sample.end <= aac[i].end + 10_000
    ensures CoveredBySweep(sample, Merged(aac))
  {
    MergedCoversSamples(aac, i);
    var k :| 0 <= k < |Merged(aac)| && Inside(aac[i], Merged(aac)[k]);
    assert Contains(Merged(aac)[k], sample);
  }
}
