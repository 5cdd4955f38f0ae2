/** The AAC track of a clip: overlaps removed and gaps filled with silence so that samples
    follow each other exactly, then cut to the video's presentation and given an edit list. */
module AudioTimeline {
  import opened Basics
  import opened Arithmetic

  const UNITS: int := 10_000_000
  const TOLERANCE: int := 50_000

  type SampleRate = r: int | 1 <= r <= UNITS witness 48_000

  /** `original` is the stamp the sample arrived with; inserted silence has none. */
  datatype Sample = Sample(pts: int, epoch: nat, frames: nat, priming: int, original: Option<int>)

  function Duration(s: Sample, rate: SampleRate): (d: nat) {
    Max(1, s.frames) * UNITS / rate
  }

  /** A sample lasts at least one unit, and its frames' time rounded down. */
  lemma DurationIsPositive(s: Sample, rate: SampleRate)
    ensures Duration(s, rate) >= 1
    ensures Duration(s, rate) * rate <= Max(1, s.frames) * 10_000_000 < (Duration(s, rate) + 1) * rate
  {
    DivisionBounds(Max(1, s.frames) * UNITS, rate);
    CancelLess(1, Duration(s, rate) + 1, rate);
  }

  // ------------------------------------------------------------- normalisation

  /** The track built so far, where the next sample is expected, and how many of the reusable
      silence samples have been taken. */
  datatype Timeline = Timeline(
    samples: seq<Sample>, expected: int, nextSilence: nat, removed: nat, inserted: nat, maximumGap: int)

  function Appended(t: Timeline, s: Sample, epoch: nat, rate: SampleRate): Timeline {
    var placed := s.(pts := t.expected, epoch := epoch, priming := 0);
    t.(samples := t.samples + [placed], expected := t.expected + Duration(placed, rate))
  }

  function Silence(frames: nat): Sample {
    Sample(0, 0, frames, 0, None)
  }

  function WithSilence(t: Timeline, n: nat, silence: seq<nat>, epoch: nat, rate: SampleRate): Timeline
    requires silence != []
    decreases n
  {
    if n == 0 then t
    else
      var before := WithSilence(t, n - 1, silence, epoch, rate);
      Appended(before, Silence(silence[before.nextSilence % |silence|]), epoch, rate)
        .(nextSilence := before.nextSilence + 1, inserted := before.inserted + 1)
  }

  /** An overlap: the sample starts too early, or ends before anything new would be heard. */
  predicate Overlaps(s: Sample, expected: int, rate: SampleRate) {
    s.pts < expected - TOLERANCE || s.pts + Duration(s, rate) <= expected + TOLERANCE
  }

  /** How many silence samples of duration `d` fill a gap: as many as fit, to the nearest. */
  function SilenceCount(gap: int, d: nat): (n: nat)
    requires gap >= 0
  {
    (gap + d / 2) / Max(1, d)
  }

  /** The track once the gap before `s` is filled. */
  function Filled(t: Timeline, s: Sample, silence: seq<nat>, epoch: nat, rate: SampleRate): Timeline
    requires silence != []
  {
    var gap := s.pts - t.expected;
    var measured := t.(maximumGap := Max(t.maximumGap, gap));
    if gap > TOLERANCE
    then WithSilence(measured, SilenceCount(gap, Duration(Silence(silence[0]), rate)), silence, epoch, rate)
    else measured
  }

  function Taken(t: Timeline, s: Sample, silence: seq<nat>, epoch: nat, rate: SampleRate): Timeline
    requires silence != []
  {
    if Overlaps(s, t.expected, rate) then t.(removed := t.removed + 1)
    else Appended(Filled(t, s, silence, epoch, rate), s, epoch, rate)
  }

  function Begun(first: Sample, rate: SampleRate): Timeline {
    Timeline([first.(epoch := Max(1, first.epoch))], first.pts + Duration(first, rate), 0, 0, 0, 0)
  }

  /** The normalised track. */
  function Normalised(samples: seq<Sample>, silence: seq<nat>, rate: SampleRate): Timeline
    requires samples != [] && silence != []
  {
    if |samples| == 1 then Begun(samples[0], rate)
    else
      var n := |samples| - 1;
      Taken(Normalised(samples[..n], silence, rate), samples[n], silence, Max(1, samples[0].epoch), rate)
  }

  /** Each sample starts exactly where the one before it ends, all in one epoch. */
  ghost predicate Contiguous(samples: seq<Sample>, epoch: nat, rate: SampleRate) {
    && (forall i :: 0 <= i < |samples| ==> samples[i].epoch == epoch)
    && (forall i :: 0 < i < |samples| ==> samples[i].pts == samples[i - 1].pts + Duration(samples[i - 1], rate))
  }

  /** Every sample that was kept lies within `drift` of its original stamp. */
  ghost predicate Near(samples: seq<Sample>, drift: int) {
    forall i :: 0 <= i < |samples| && samples[i].original.Some? ==>
      -drift <= samples[i].pts - samples[i].original.value <= drift
  }

  /** Where the track ends. */
  ghost predicate EndsAt(samples: seq<Sample>, expected: int, rate: SampleRate) {
    samples != [] && expected == samples[|samples| - 1].pts + Duration(samples[|samples| - 1], rate)
  }

  ghost predicate Stamped(samples: seq<Sample>) {
    forall i :: 0 <= i < |samples| ==> samples[i].original == Some(samples[i].pts)
  }

  /** The bound on a kept sample's move: the tolerance, or half a silence sample rounded up. */
  function Drift(d: nat): int {
    Max(TOLERANCE, (d + 1) / 2)
  }

  ghost predicate Sound(t: Timeline, epoch: nat, rate: SampleRate) {
    Contiguous(t.samples, epoch, rate) && EndsAt(t.samples, t.expected, rate)
  }

  lemma AppendKeepsSound(t: Timeline, s: Sample, epoch: nat, rate: SampleRate)
    requires Sound(t, epoch, rate)
    ensures Sound(Appended(t, s, epoch, rate), epoch, rate)
  {
  }

  lemma {:induction false} SilenceKeepsSound(t: Timeline, n: nat, silence: seq<nat>, epoch: nat, rate: SampleRate)
    requires silence != [] && Sound(t, epoch, rate)
    ensures Sound(WithSilence(t, n, silence, epoch, rate), epoch, rate)
    decreases n
  {
    if n > 0 {
      SilenceKeepsSound(t, n - 1, silence, epoch, rate);
      var before := WithSilence(t, n - 1, silence, epoch, rate);
      AppendKeepsSound(before, Silence(silence[before.nextSilence % |silence|]), epoch, rate);
    }
  }

  /** Normalisation makes the track exactly contiguous, from the first stamp on. */
  lemma {:induction false} NormalisedIsContiguous(samples: seq<Sample>, silence: seq<nat>, rate: SampleRate)
    requires samples != [] && silence != []
    ensures Sound(Normalised(samples, silence, rate), Max(1, samples[0].epoch), rate)
    ensures Normalised(samples, silence, rate).samples[0].pts == samples[0].pts
  {
    if |samples| > 1 {
      var n, epoch := |samples| - 1, Max(1, samples[0].epoch);
      var t := Normalised(samples[..n], silence, rate);
      NormalisedIsContiguous(samples[..n], silence, rate);
      TakenKeepsSound(t, samples[n], silence, epoch, rate);
      TakenExtends(t, samples[n], silence, epoch, rate);
    }
  }

  lemma TakenKeepsSound(t: Timeline, s: Sample, silence: seq<nat>, epoch: nat, rate: SampleRate)
    requires silence != [] && Sound(t, epoch, rate)
    ensures Sound(Taken(t, s, silence, epoch, rate), epoch, rate)
  {
    if !Overlaps(s, t.expected, rate) {
      var filled := Filled(t, s, silence, epoch, rate);
      if s.pts - t.expected > TOLERANCE {
        SilenceKeepsSound(t.(maximumGap := Max(t.maximumGap, s.pts - t.expected)),
                          SilenceCount(s.pts - t.expected, Duration(Silence(silence[0]), rate)), silence, epoch, rate);
      }
      AppendKeepsSound(filled, s, epoch, rate);
    }
  }

  lemma {:induction false} SilenceLength(
    t: Timeline, n: nat, silence: seq<nat>, epoch: nat, rate: SampleRate, drift: int)
    requires silence != [] && (forall f <- silence :: f == silence[0]) && Near(t.samples, drift)
    ensures var u := WithSilence(t, n, silence, epoch, rate);
            u.expected == t.expected + n * Duration(Silence(silence[0]), rate) && Near(u.samples, drift)
    decreases n
  {
    if n > 0 {
      SilenceLength(t, n - 1, silence, epoch, rate, drift);
      var before := WithSilence(t, n - 1, silence, epoch, rate);
      var d := Duration(Silence(silence[0]), rate);
      assert silence[before.nextSilence % |silence|] in silence;
      assert n * d == (n - 1) * d + d;
    }
  }

  /** Rounding to whole silence samples leaves at most half of one. */
  lemma SilenceFillsGap(gap: int, d: nat)
    requires gap >= 0 && d >= 1
    ensures -((d + 1) / 2) <= gap - SilenceCount(gap, d) * d <= (d + 1) / 2
  {
    DivisionBounds(gap + d / 2, d);
    var n := SilenceCount(gap, d);
    assert (n + 1) * d == n * d + d;
  }

  lemma TakenKeepsNear(t: Timeline, s: Sample, silence: seq<nat>, epoch: nat, rate: SampleRate, drift: int)
    requires silence != [] && forall f <- silence :: f == silence[0]
    requires s.original == Some(s.pts) && drift == Drift(Duration(Silence(silence[0]), rate))
    requires Near(t.samples, drift)
    ensures Near(Taken(t, s, silence, epoch, rate).samples, drift)
  {
    if !Overlaps(s, t.expected, rate) {
      var d, gap := Duration(Silence(silence[0]), rate), s.pts - t.expected;
      if gap > TOLERANCE {
        DurationIsPositive(Silence(silence[0]), rate);
        SilenceFillsGap(gap, d);
        SilenceLength(t.(maximumGap := Max(t.maximumGap, gap)), SilenceCount(gap, d), silence, epoch, rate, drift);
      }
      assert -drift <= Filled(t, s, silence, epoch, rate).expected - s.pts <= drift;
    }
  }

  /** Drift never accumulates: with silence samples of one length, a kept sample moves by at
      most the tolerance or half a silence sample, however many gaps came before it. */
  lemma {:induction false} DriftIsBounded(samples: seq<Sample>, silence: seq<nat>, rate: SampleRate)
    requires samples != [] && Stamped(samples)
    requires silence != [] && forall f <- silence :: f == silence[0]
    ensures Near(Normalised(samples, silence, rate).samples, Drift(Duration(Silence(silence[0]), rate)))
  {
    if |samples| > 1 {
      var n := |samples| - 1;
      DriftIsBounded(samples[..n], silence, rate);
      TakenKeepsNear(Normalised(samples[..n], silence, rate), samples[n], silence, Max(1, samples[0].epoch), rate,
                     Drift(Duration(Silence(silence[0]), rate)));
    }
  }

  /** A track that is already contiguous, of samples longer than the tolerance, is kept whole. */
  lemma {:induction false} ContiguousTrackIsKept(samples: seq<Sample>, silence: seq<nat>, rate: SampleRate)
    requires samples != [] && silence != []
    requires Contiguous(samples, Max(1, samples[0].epoch), rate)
    requires forall i :: 0 <= i < |samples| ==> Duration(samples[i], rate) > TOLERANCE
    ensures var t := Normalised(samples, silence, rate);
            && |t.samples| == |samples| && t.removed == t.inserted == t.maximumGap == 0
            && t.samples[0] == samples[0]
            && forall i :: 0 < i < |samples| ==> t.samples[i] == samples[i].(priming := 0)
  {
    if |samples| > 1 {
      var n := |samples| - 1;
      ContiguousTrackIsKept(samples[..n], silence, rate);
      NormalisedIsContiguous(samples[..n], silence, rate);
      var t := Normalised(samples[..n], silence, rate);
      assert t.expected == samples[n].pts;
    }
  }

  lemma {:induction false} SilenceExtends(t: Timeline, n: nat, silence: seq<nat>, epoch: nat, rate: SampleRate)
    requires silence != []
    ensures t.samples <= WithSilence(t, n, silence, epoch, rate).samples
    decreases n
  {
    if n > 0 {
      SilenceExtends(t, n - 1, silence, epoch, rate);
    }
  }

  lemma TakenExtends(t: Timeline, s: Sample, silence: seq<nat>, epoch: nat, rate: SampleRate)
    requires silence != []
    ensures t.samples <= Taken(t, s, silence, epoch, rate).samples
  {
    var gap := s.pts - t.expected;
    if gap > TOLERANCE {
      SilenceExtends(t.(maximumGap := Max(t.maximumGap, gap)),
                     SilenceCount(gap, Duration(Silence(silence[0]), rate)), silence, epoch, rate);
    }
  }

  // ------------------------------------------------- which samples are kept, and where

  /** Where a track ends, by its own last sample. */
  function EndOf(track: seq<Sample>, rate: SampleRate): int
    requires track != []
  {
    track[|track| - 1].pts + Duration(track[|track| - 1], rate)
  }

  /** `after` is `before`, silence, and then the sample moved to where the silence ends. */
  ghost predicate Continues(
    before: seq<Sample>, after: seq<Sample>, s: Sample, silence: seq<nat>, epoch: nat, rate: SampleRate)
  {
    && before <= after && |before| < |after|
    && after[|after| - 1] == s.(pts := after[|after| - 1].pts, epoch := epoch, priming := 0)
    && (forall i :: |before| <= i < |after| - 1 ==> after[i].original == None && after[i].frames in silence)
  }

  /** What a track becomes with one more sample, by where it ends. The sample is dropped exactly
      when it starts more than 5 ms before that end or ends no more than 5 ms after it. Else it is
      last: at the end if it comes within 5 ms of it, and otherwise after silence that ends within
      half a silence sample of its stamp. */
  lemma {:induction false} NextSampleRule(samples: seq<Sample>, silence: seq<nat>, rate: SampleRate)
    requires |samples| > 1 && silence != [] && forall f <- silence :: f == silence[0]
    ensures var n: nat, d: int := |samples| - 1, Duration(Silence(silence[0]), rate);
            var s, before := samples[n], Normalised(samples[..n], silence, rate).samples;
            var after := Normalised(samples, silence, rate).samples;
            before != [] &&
            var end := EndOf(before, rate);
            && (after == before <==> s.pts < end - 50_000 || s.pts + Duration(s, rate) <= end + 50_000)
            && (after != before ==> Continues(before, after, s, silence, Max(1, samples[0].epoch), rate))
            && (after != before && s.pts <= end + 50_000 ==> |after| == |before| + 1)
            && (after != before && s.pts > end + 50_000 ==>
                  -d <= 2 * (s.pts - after[|after| - 1].pts) <= d)
  {
    var n, epoch, d := |samples| - 1, Max(1, samples[0].epoch), Duration(Silence(silence[0]), rate);
    var s, t := samples[n], Normalised(samples[..n], silence, rate);
    NormalisedIsContiguous(samples[..n], silence, rate);
    assert t.expected == EndOf(t.samples, rate);
    var gap := s.pts - t.expected;
    if !Overlaps(s, t.expected, rate) && gap > TOLERANCE {
      var measured, count := t.(maximumGap := Max(t.maximumGap, gap)), SilenceCount(gap, d);
      SilenceRuns(measured, count, silence, epoch, rate);
      DurationIsPositive(Silence(silence[0]), rate);
      SilenceIsNearest(gap, d);
    }
  }

  lemma {:induction false} SilenceRuns(t: Timeline, n: nat, silence: seq<nat>, epoch: nat, rate: SampleRate)
    requires silence != [] && forall f <- silence :: f == silence[0]
    ensures var u := WithSilence(t, n, silence, epoch, rate);
            && u.expected == t.expected + n * Duration(Silence(silence[0]), rate)
            && t.samples <= u.samples && |u.samples| == |t.samples| + n
            && forall i :: |t.samples| <= i < |u.samples| ==> u.samples[i].original == None && u.samples[i].frames in silence
    decreases n
  {
    if n > 0 {
      SilenceRuns(t, n - 1, silence, epoch, rate);
      var before := WithSilence(t, n - 1, silence, epoch, rate);
      var d := Duration(Silence(silence[0]), rate);
      assert silence[before.nextSilence % |silence|] in silence;
      assert n * d == (n - 1) * d + d;
    }
  }

  lemma SilenceIsNearest(gap: int, d: nat)
    requires gap >= 0 && d >= 1
    ensures -(d as int) <= 2 * (gap - SilenceCount(gap, d) * d) <= d
  {
    DivisionBounds(gap + d / 2, d);
    var n := SilenceCount(gap, d);
    assert (n + 1) * d == n * d + d;
  }

  /** A sample of more than 5 ms that starts where the track ends or later is never dropped. */
  lemma {:induction false} SampleAfterTheEndIsKept(samples: seq<Sample>, silence: seq<nat>, rate: SampleRate)
    requires |samples| > 1 && silence != [] && forall f <- silence :: f == silence[0]
    requires Duration(samples[|samples| - 1], rate) > 50_000
    requires var before := Normalised(samples[..|samples| - 1], silence, rate).samples;
             before != [] && samples[|samples| - 1].pts >= EndOf(before, rate)
    ensures var s, after := samples[|samples| - 1], Normalised(samples, silence, rate).samples;
            after[|after| - 1] == s.(pts := after[|after| - 1].pts, epoch := Max(1, samples[0].epoch), priming := 0)
  {
    NextSampleRule(samples, silence, rate);
  }

  /** No sample starts before the one before it ends, and all last more than 10 ms. */
  ghost predicate Separate(samples: seq<Sample>, rate: SampleRate) {
    && (forall i :: 0 <= i < |samples| ==> Duration(samples[i], rate) > 100_000)
    && (forall i :: 0 < i < |samples| ==> samples[i - 1].pts + Duration(samples[i - 1], rate) <= samples[i].pts)
  }

  /** How far the track runs ahead of a sample once the gap before it is filled. */
  function Settled(ahead: int, d: nat): int {
    if ahead < -TOLERANCE then ahead + SilenceCount(-ahead, d) * d else ahead
  }

  /** How far the track's end is ahead of the stamp of sample `n`, if all samples before it are
      kept: computed from the stamps and the length `d` of silence alone. */
  function Ahead(samples: seq<Sample>, n: nat, d: nat, rate: SampleRate): int
    requires 0 < n < |samples|
  {
    var pause := samples[n].pts - (samples[n - 1].pts + Duration(samples[n - 1], rate));
    (if n == 1 then 0 else Settled(Ahead(samples, n - 1, d, rate), d)) - pause
  }

  /** The filling before every sample ends at most 5 ms after the sample's stamp. */
  ghost predicate NeverTooFarAhead(samples: seq<Sample>, d: nat, rate: SampleRate) {
    forall n :: 0 < n < |samples| ==> Ahead(samples, n, d, rate) <= 50_000
  }

  lemma {:induction false} AheadOfFront(samples: seq<Sample>, m: nat, n: nat, d: nat, rate: SampleRate)
    requires 0 < n < m <= |samples|
    ensures Ahead(samples[..m], n, d, rate) == Ahead(samples, n, d, rate)
  {
    if n > 1 {
      AheadOfFront(samples, m, n - 1, d, rate);
    }
  }

  /** Samples that overlap no other are all kept exactly when filling gaps never brings the track
      more than 5 ms ahead of a sample. */
  lemma {:induction false} SeparateSamplesAreKept(samples: seq<Sample>, silence: seq<nat>, rate: SampleRate)
    requires samples != [] && Separate(samples, rate)
    requires silence != [] && forall f <- silence :: f == silence[0]
    ensures var d := Duration(Silence(silence[0]), rate);
            var t := Normalised(samples, silence, rate);
            && (t.removed == 0 <==> NeverTooFarAhead(samples, d, rate))
            && (t.removed == 0 ==>
                  t.expected - EndOf(samples, rate)
                  == if |samples| == 1 then 0 else Settled(Ahead(samples, |samples| - 1, d, rate), d))
  {
    var n, d, t := |samples| - 1, Duration(Silence(silence[0]), rate), Normalised(samples, silence, rate);
    if n > 0 {
      var front := samples[..n];
      var before := Normalised(front, silence, rate);
      SeparateSamplesAreKept(front, silence, rate);
      forall k | 0 < k < n
        ensures Ahead(front, k, d, rate) == Ahead(samples, k, d, rate)
      {
        AheadOfFront(samples, n, k, d, rate);
      }
      SampleTaken(before, samples[n], silence, Max(1, samples[0].epoch), rate, d);
      if before.removed == 0 {
        assert before.expected - samples[n].pts == Ahead(samples, n, d, rate);
        assert NeverTooFarAhead(front, d, rate);
      } else {
        assert !NeverTooFarAhead(front, d, rate);
        var k :| 0 < k < n && Ahead(front, k, d, rate) > 50_000;
        assert Ahead(samples, k, d, rate) > 50_000;
      }
    }
  }

  /** One more sample of more than 10 ms that does not start before the samples before it end. */
  lemma {:induction false} SampleTaken(
    t: Timeline, s: Sample, silence: seq<nat>, epoch: nat, rate: SampleRate, d: nat)
    requires silence != [] && (forall f <- silence :: f == silence[0]) && Duration(s, rate) > 100_000
    requires d == Duration(Silence(silence[0]), rate)
    ensures var u, ahead := Taken(t, s, silence, epoch, rate), t.expected - s.pts;
            && u.removed == t.removed + (if ahead > 50_000 then 1 else 0)
            && (ahead <= 50_000 ==> u.expected == s.pts + Duration(s, rate) + Settled(ahead, d))
  {
    var gap := s.pts - t.expected;
    if gap > TOLERANCE {
      var measured := t.(maximumGap := Max(t.maximumGap, gap));
      SilenceRuns(measured, SilenceCount(gap, d), silence, epoch, rate);
      SilenceKeepsRemoved(measured, SilenceCount(gap, d), silence, epoch, rate);
    }
  }

  lemma {:induction false} SilenceKeepsRemoved(t: Timeline, n: nat, silence: seq<nat>, epoch: nat, rate: SampleRate)
    requires silence != []
    ensures WithSilence(t, n, silence, epoch, rate).removed == t.removed
    decreases n
  {
    if n > 0 {
      SilenceKeepsRemoved(t, n - 1, silence, epoch, rate);
    }
  }

  /** Silence of at most 10 ms never brings the track too far ahead. */
  lemma {:induction false} ShortSilenceKeepsAll(samples: seq<Sample>, d: nat, rate: SampleRate, n: nat)
    requires Separate(samples, rate) && 1 <= d <= 100_000 && 0 < n < |samples|
    ensures Ahead(samples, n, d, rate) <= 50_000
  {
    if n > 1 {
      ShortSilenceKeepsAll(samples, d, rate, n - 1);
      var ahead := Ahead(samples, n - 1, d, rate);
      if ahead < -TOLERANCE {
        SilenceIsNearest(-ahead, d);
      }
    }
  }

  const UNEVEN_STAMPS: seq<int> := [0, 333_333, 546_666, 759_999, 973_332]

  function Uneven(): seq<Sample> {
    seq(5, i requires 0 <= i < 5 => Sample(UNEVEN_STAMPS[i], 1, 1_024, 0, None))
  }

  /** Silence as long as a sample can: of these five samples at 48 kHz, none of which overlaps
      another, not all are kept. */
  lemma {:induction false} SeparateSampleCanBeDropped()
    ensures Separate(Uneven(), 48_000) && !NeverTooFarAhead(Uneven(), 213_333, 48_000)
    ensures Duration(Silence(1_024), 48_000) == 213_333
    ensures Normalised(Uneven(), [1_024], 48_000).removed > 0
  {
    var samples := Uneven();
    assert Ahead(samples, 1, 213_333, 48_000) == -120_000;
    assert Ahead(samples, 2, 213_333, 48_000) == 93_333;
    SeparateSamplesAreKept(samples, [1_024], 48_000);
  }

  // Fills one gap with reusable silence.
  method FillGap(t: Timeline, s: Sample, silence: seq<nat>, epoch: nat, rate: SampleRate) returns (u: Timeline)
    requires silence != []
    ensures u == Filled(t, s, silence, epoch, rate)
  {
    var gap := s.pts - t.expected;
    u := t.(maximumGap := Max(t.maximumGap, gap));
    if gap > TOLERANCE {
      ghost var measured := u;
      var n := SilenceCount(gap, Duration(Silence(silence[0]), rate));
      for i := 0 to n
        invariant u == WithSilence(measured, i, silence, epoch, rate)
      {
        u := Appended(u, Silence(silence[u.nextSilence % |silence|]), epoch, rate)
          .(nextSilence := u.nextSilence + 1, inserted := u.inserted + 1);
      }
    }
  }

  /** What fills gaps when the encoder yields no silence: nothing can, and then it must not
      matter what would. */
  const STAND_IN: seq<nat> := [1]

  lemma {:induction false} SilenceKeepsMaximumGap(t: Timeline, n: nat, silence: seq<nat>, epoch: nat, rate: SampleRate)
    requires silence != []
    ensures WithSilence(t, n, silence, epoch, rate).maximumGap == t.maximumGap
    decreases n
  {
    if n > 0 {
      SilenceKeepsMaximumGap(t, n - 1, silence, epoch, rate);
    }
  }

  lemma TakenRecordsGap(t: Timeline, s: Sample, silence: seq<nat>, epoch: nat, rate: SampleRate)
    requires silence != []
    ensures Taken(t, s, silence, epoch, rate).maximumGap
         == if Overlaps(s, t.expected, rate) then t.maximumGap else Max(t.maximumGap, s.pts - t.expected)
  {
    var gap := s.pts - t.expected;
    if gap > TOLERANCE {
      SilenceKeepsMaximumGap(t.(maximumGap := Max(t.maximumGap, gap)),
                             SilenceCount(gap, Duration(Silence(silence[0]), rate)), silence, epoch, rate);
    }
  }

  lemma {:induction false} MaximumGapGrows(samples: seq<Sample>, i: nat, silence: seq<nat>, rate: SampleRate)
    requires 0 < i <= |samples| && silence != []
    ensures Normalised(samples[..i], silence, rate).maximumGap <= Normalised(samples, silence, rate).maximumGap
    decreases |samples|
  {
    if i < |samples| {
      var n := |samples| - 1;
      MaximumGapGrows(samples[..n], i, silence, rate);
      assert samples[..n][..i] == samples[..i];
      TakenRecordsGap(Normalised(samples[..n], silence, rate), samples[n], silence, Max(1, samples[0].epoch), rate);
    } else {
      assert samples[..i] == samples;
    }
  }

  /** Every sample starts within the tolerance of where the one before it ends. */
  ghost predicate NearlyContiguous(samples: seq<Sample>, epoch: nat, rate: SampleRate) {
    && (forall i :: 0 <= i < |samples| ==> samples[i].epoch == epoch)
    && (forall i :: 0 < i < |samples| ==>
          -TOLERANCE <= samples[i].pts - (samples[i - 1].pts + Duration(samples[i - 1], rate)) <= TOLERANCE)
  }

  // The closing check. Over a contiguous track it cannot fail.
  method Verify(samples: seq<Sample>, epoch: nat, rate: SampleRate) returns (ok: bool)
    requires samples != []
    ensures ok <==> NearlyContiguous(samples, epoch, rate)
  {
    var next := samples[0].pts;
    for i := 0 to |samples|
      invariant NearlyContiguous(samples[..i], epoch, rate)
      invariant next == if i == 0 then samples[0].pts else samples[i - 1].pts + Duration(samples[i - 1], rate)
    {
      if samples[i].epoch != epoch || samples[i].pts - next > TOLERANCE || next - samples[i].pts > TOLERANCE {
        return false;
      }
      next := samples[i].pts + Duration(samples[i], rate);
    }
    assert samples[..|samples|] == samples;
    ok := true;
  }

  // `silence` is what the encoder yields when silence is first needed; nothing when it fails.
  // The call fails exactly when silence is needed and there is none.
  method MakeAudioTimelineContinuous(samples: seq<Sample>, silence: seq<nat>, rate: SampleRate)
    returns (ok: bool, result: seq<Sample>)
    ensures samples == [] ==> ok && result == []
    ensures samples != [] ==>
              var t := Normalised(samples, if silence == [] then STAND_IN else silence, rate);
              && (ok <==> silence != [] || t.maximumGap <= TOLERANCE)
              && (ok ==> result == t.samples)
  {
    if samples == [] { return true, []; }
    var epoch := Max(1, samples[0].epoch);
    ghost var filler := if silence == [] then STAND_IN else silence;
    var t := Begun(samples[0], rate);
    assert samples[..1] == [samples[0]];
    for i := 1 to |samples|
      invariant t == Normalised(samples[..i], filler, rate)
      invariant silence == [] ==> t.maximumGap <= TOLERANCE
    {
      var s := samples[i];
      assert samples[..i + 1][..i] == samples[..i];
      TakenRecordsGap(t, s, filler, epoch, rate);
      if Overlaps(s, t.expected, rate) {
        t := t.(removed := t.removed + 1);
        continue;
      }
      if s.pts - t.expected > TOLERANCE && silence == [] {
        MaximumGapGrows(samples, i + 1, filler, rate);
        return false, [];
      }
      if silence != [] {
        t := FillGap(t, s, silence, epoch, rate);
      } else {
        t := t.(maximumGap := Max(t.maximumGap, s.pts - t.expected));
      }
      t := Appended(t, s, epoch, rate);
    }
    assert samples[..|samples|] == samples;
    NormalisedIsContiguous(samples, filler, rate);
    result := t.samples;
    ok := Verify(result, epoch, rate);
  }

  // ---------------------------------------------------------------- alignment

  /** The frames of a track's first `n` samples. */
  function FrameSum(samples: seq<Sample>, n: nat): nat
    requires n <= |samples|
  {
    if n == 0 then 0 else FrameSum(samples, n - 1) + Max(1, samples[n - 1].frames)
  }

  function LeadingFrames(samples: seq<Sample>, start: int, rate: SampleRate): nat
    requires samples != []
  {
    (Max(0, start - samples[0].pts) * rate + UNITS - 1) / UNITS
  }

  function FramesToDiscard(samples: seq<Sample>, start: int, rate: SampleRate): nat
    requires samples != []
  {
    LeadingFrames(samples, start, rate) + Max(0, samples[0].priming)
  }

  /** How many leading samples go: the fewest that hold all frames to discard, or all. */
  ghost predicate IsLeadingDrop(samples: seq<Sample>, start: int, rate: SampleRate, n: nat)
    requires samples != []
  {
    && n <= |samples|
    && (n < |samples| ==> FrameSum(samples, n) >= FramesToDiscard(samples, start, rate))
    && (n > 0 ==> FrameSum(samples, n - 1) < FramesToDiscard(samples, start, rate))
  }

  /** Elapsed time over contiguous samples, against their frames: each rounds down by less
      than one unit. */
  lemma {:induction false} ElapsedCoversFrames(samples: seq<Sample>, epoch: nat, rate: SampleRate, n: nat)
    requires Contiguous(samples, epoch, rate) && 0 < n < |samples|
    ensures (samples[n].pts - samples[0].pts + n) * rate > FrameSum(samples, n) * UNITS
  {
    var frames := Max(1, samples[n - 1].frames);
    DivisionBounds(frames * UNITS, rate);
    var d := Duration(samples[n - 1], rate);
    assert samples[n].pts == samples[n - 1].pts + d;
    assert FrameSum(samples, n) == FrameSum(samples, n - 1) + frames;
    var elapsed := samples[n - 1].pts - samples[0].pts + (n - 1);
    assert (elapsed + (d + 1)) * rate == elapsed * rate + (d + 1) * rate;
    if n > 1 {
      ElapsedCoversFrames(samples, epoch, rate, n - 1);
    }
  }

  lemma {:induction false} PtsIncrease(samples: seq<Sample>, epoch: nat, rate: SampleRate, i: nat, j: nat)
    requires Contiguous(samples, epoch, rate) && i < j < |samples|
    ensures samples[i].pts + Duration(samples[i], rate) <= samples[j].pts
    decreases j
  {
    if i < j - 1 {
      PtsIncrease(samples, epoch, rate, i, j - 1);
      assert samples[j].pts == samples[j - 1].pts + Duration(samples[j - 1], rate);
    }
  }

  /** The first retained sample starts less than one unit per dropped sample before the video,
      and not before it at all when none is dropped. */
  lemma ClampIsSmall(samples: seq<Sample>, epoch: nat, rate: SampleRate, start: int, n: nat)
    requires Contiguous(samples, epoch, rate) && n < |samples| && IsLeadingDrop(samples, start, rate, n)
    ensures start - samples[n].pts < Max(1, n)
  {
    var leading := Max(0, start - samples[0].pts);
    var frames := LeadingFrames(samples, start, rate);
    DivisionBounds(leading * rate + UNITS - 1, UNITS);
    assert frames * UNITS >= leading * rate;
    if n == 0 {
      if leading > 0 {
        MulMonotone(1, leading, rate);
      }
    } else if leading > 0 {
      ElapsedCoversFrames(samples, epoch, rate, n);
      MulMonotone(frames, FrameSum(samples, n), UNITS);
      CancelLess(leading, samples[n].pts - samples[0].pts + n, rate);
    } else {
      PtsIncrease(samples, epoch, rate, 0, n);
    }
  }

  // Finds the first sample at or after `end` by halving; the stamps before it are earlier.
  method LowerBound(samples: seq<Sample>, end: int) returns (at: nat)
    requires Divided(samples, end)
    ensures at <= |samples|
    ensures forall i :: 0 <= i < at ==> samples[i].pts < end
    ensures forall i :: at <= i < |samples| ==> samples[i].pts >= end
  {
    at := 0;
    var count: nat := |samples|;
    while count > 0
      invariant at + count <= |samples|
      invariant forall i :: 0 <= i < at ==> samples[i].pts < end
      invariant forall i :: at + count <= i < |samples| ==> samples[i].pts >= end
    {
      var half := count / 2;
      if samples[at + half].pts < end {
        at, count := at + half + 1, count - half - 1;
      } else {
        count := half;
      }
    }
  }

  method LeadingDrop(samples: seq<Sample>, start: int, rate: SampleRate) returns (n: nat)
    requires samples != []
    ensures IsLeadingDrop(samples, start, rate, n)
  {
    var toDiscard := FramesToDiscard(samples, start, rate);
    var frames := 0;
    n := 0;
    while n < |samples| && frames < toDiscard
      invariant n <= |samples| && frames == FrameSum(samples, n)
      invariant n > 0 ==> FrameSum(samples, n - 1) < toDiscard
    {
      frames := frames + Max(1, samples[n].frames);
      n := n + 1;
    }
  }

  /** What is dropped holds the encoder's priming frames and every frame before the start, and
      with one sample less it would not. */
  lemma DropCoversPriming(samples: seq<Sample>, start: int, rate: SampleRate, n: nat)
    requires samples != [] && IsLeadingDrop(samples, start, rate, n)
    ensures var priming, late := Max(0, samples[0].priming), Max(0, start - samples[0].pts);
            && (n < |samples| ==>
                  FrameSum(samples, n) >= priming && (FrameSum(samples, n) - priming) * 10_000_000 >= late * rate)
            && (n > 0 ==>
                  FrameSum(samples, n - 1) < priming || (FrameSum(samples, n - 1) - priming) * 10_000_000 < late * rate)
  {
    var priming, late := Max(0, samples[0].priming), Max(0, start - samples[0].pts);
    var frames := LeadingFrames(samples, start, rate);
    MulMonotone(0, late, rate);
    DivisionBounds(late * rate + UNITS - 1, UNITS);
    if n < |samples| {
      MulMonotone(frames, FrameSum(samples, n) - priming, UNITS);
    }
    if n > 0 && FrameSum(samples, n - 1) >= priming {
      MulMonotone(FrameSum(samples, n - 1) - priming + 1, frames, UNITS);
    }
  }

  /** The track from sample `n` on, its first sample moved up to the start. */
  function Retained(samples: seq<Sample>, n: nat, start: int): seq<Sample>
    requires n < |samples|
  {
    [samples[n].(pts := Max(start, samples[n].pts), priming := 0)] + samples[n + 1..]
  }

  /** Only the move of the first sample can put retained samples out of order. */
  lemma RetainedOrder(samples: seq<Sample>, epoch: nat, rate: SampleRate, n: nat, start: int, i: nat, j: nat)
    requires Contiguous(samples, epoch, rate) && n < |samples| && i < j < |samples| - n
    ensures var kept := Retained(samples, n, start);
            && (i > 0 ==> kept[i].pts < kept[j].pts)
            && (kept[0].pts - samples[n].pts <= Duration(samples[n], rate) ==> kept[i].pts <= kept[j].pts)
            && (kept[0].pts - samples[n].pts > Duration(samples[n], rate) ==> kept[1].pts < kept[0].pts == start)
  {
    PtsIncrease(samples, epoch, rate, n + i, n + j);
    DurationIsPositive(samples[n + i], rate);
    if i > 0 {
      PtsIncrease(samples, epoch, rate, n, n + i);
    }
    assert samples[n + 1].pts == samples[n].pts + Duration(samples[n], rate);
  }

  /** Stamps before `end` come before stamps after it. */
  ghost predicate Divided(samples: seq<Sample>, end: int) {
    forall i, j :: 0 <= i < j < |samples| && samples[j].pts < end ==> samples[i].pts < end
  }

  lemma RetainedIsDivided(samples: seq<Sample>, epoch: nat, rate: SampleRate, n: nat, start: int, end: int)
    requires Contiguous(samples, epoch, rate) && n < |samples| && start < end
    ensures Divided(Retained(samples, n, start), end)
  {
    var kept := Retained(samples, n, start);
    forall i, j | 0 <= i < j < |kept| && kept[j].pts < end
      ensures kept[i].pts < end
    {
      RetainedOrder(samples, epoch, rate, n, start, i, j);
    }
  }

  /** What is kept starts before the end, and what is cut off does not. */
  ghost predicate CutAt(kept: seq<Sample>, result: seq<Sample>, end: int) {
    && result <= kept
    && (forall i :: 0 <= i < |result| ==> result[i].pts < end)
    && (forall i :: |result| <= i < |kept| ==> kept[i].pts >= end)
  }

  ghost predicate StartsInside(result: seq<Sample>, start: int) {
    forall i :: 0 <= i < |result| ==> result[i].pts >= start
  }

  /** The cut track starts inside the presentation unless its first sample was moved past the
      second. */
  lemma InsideUnlessMovedPast(
    samples: seq<Sample>, epoch: nat, rate: SampleRate, n: nat, start: int, result: seq<Sample>)
    requires Contiguous(samples, epoch, rate) && n < |samples| && result <= Retained(samples, n, start)
    ensures StartsInside(result, start) <==>
              |result| < 2 || Retained(samples, n, start)[0].pts - samples[n].pts <= Duration(samples[n], rate)
  {
    var kept := Retained(samples, n, start);
    if |result| >= 2 {
      RetainedOrder(samples, epoch, rate, n, start, 0, 1);
      assert result[1] == kept[1] && result[0] == kept[0];
    }
    if kept[0].pts - samples[n].pts <= Duration(samples[n], rate) {
      forall j | 0 <= j < |result|
        ensures result[j].pts >= start
      {
        if j > 0 {
          RetainedOrder(samples, epoch, rate, n, start, 0, j);
        }
      }
    }
  }

  /** It does whenever no more samples are dropped than the first retained one lasts units. */
  lemma ShortDropStartsInside(
    samples: seq<Sample>, epoch: nat, rate: SampleRate, start: int, n: nat, result: seq<Sample>)
    requires Contiguous(samples, epoch, rate) && n < |samples| && IsLeadingDrop(samples, start, rate, n)
    requires n <= Duration(samples[n], rate) && result <= Retained(samples, n, start)
    ensures StartsInside(result, start)
  {
    ClampIsSmall(samples, epoch, rate, start, n);
    InsideUnlessMovedPast(samples, epoch, rate, n, start, result);
  }

  /** A track of `count` samples of one frame each at 48 kHz, which last 208 units. */
  function OneFrameSamples(count: nat): seq<Sample> {
    seq(count, (i: nat) => Sample(208 * i, 1, 1, 0, None))
  }

  lemma {:induction false} OneFrameSum(count: nat, n: nat)
    requires n <= count
    ensures FrameSum(OneFrameSamples(count), n) == n
  {
    if n > 0 {
      OneFrameSum(count, n - 1);
    }
  }

  /** It need not otherwise: 627 dropped samples of 208 1/3 units each, with their stamps rounded
      down, leave the first retained one moved by 209 units, past the second. */
  lemma LongDropCanStartBefore()
    ensures var samples, start := OneFrameSamples(629), 130_625;
            && Contiguous(samples, 1, 48_000) && IsLeadingDrop(samples, start, 48_000, 627)
            && CutAt(Retained(samples, 627, start), Retained(samples, 627, start), start + 10_000_000)
            && !StartsInside(Retained(samples, 627, start), start)
  {
    var samples, start := OneFrameSamples(629), 130_625;
    OneFrameSum(629, 627);
    OneFrameSum(629, 626);
    assert Retained(samples, 627, start)[1].pts == 130_624;
  }

  /** Cuts a contiguous track to the presentation `[start, start + duration)`: the retained
      samples are one run of the input, its first one moved up to the start. */
  method AlignAudioTrackToVideo(
    samples: seq<Sample>, start: int, duration: nat, rate: SampleRate, ghost epoch: nat)
    returns (result: seq<Sample>, ghost first: nat)
    requires Contiguous(samples, epoch, rate) && duration >= 1
    ensures samples == [] ==> result == []
    ensures samples != [] ==> IsLeadingDrop(samples, start, rate, first)
    ensures samples != [] && first == |samples| ==> result == []
    ensures samples != [] && first < |samples| ==> CutAt(Retained(samples, first, start), result, start + duration)
    ensures samples != [] && first < |samples| && first <= Duration(samples[first], rate) ==> StartsInside(result, start)
    ensures result != [] ==>
              && first + |result| <= |samples|
              && result[0] == samples[first].(pts := Max(start, samples[first].pts), priming := 0)
              && forall i :: 0 < i < |result| ==> result[i] == samples[first + i]
  {
    if samples == [] { return [], 0; }
    var n := LeadingDrop(samples, start, rate);
    first := n;
    if n == |samples| { return [], n; }
    var kept := Retained(samples, n, start);
    RetainedIsDivided(samples, epoch, rate, n, start, start + duration);
    var end := LowerBound(kept, start + duration);
    result := kept[..end];
    if n <= Duration(samples[n], rate) {
      ShortDropStartsInside(samples, epoch, rate, start, n, result);
    }
  }

  // ----------------------------------------------------------------- edit list

  /** One edit: how long it plays, and the media time it plays from or -1 for silence. */
  datatype Edit = Edit(duration: nat, mediaTime: int)

  function EditSum(edits: seq<Edit>): nat {
    if edits == [] then 0 else EditSum(edits[..|edits| - 1]) + edits[|edits| - 1].duration
  }

  function Part(duration: nat, mediaTime: int): seq<Edit> {
    if duration > 0 then [Edit(duration, mediaTime)] else []
  }

  /** Silence up to the first sample, the media from its beginning, silence to the end. */
  function EditList(lead: nat, play: nat, movie: nat): seq<Edit>
    requires lead + play <= movie
  {
    Part(lead, -1) + Part(play, 0) + Part(movie - lead - play, -1)
  }

  lemma PartAdds(longer: seq<Edit>, edits: seq<Edit>, duration: nat, mediaTime: int)
    requires longer == edits + Part(duration, mediaTime)
    ensures EditSum(longer) == EditSum(edits) + duration
  {
    if duration > 0 {
      assert longer[..|edits|] == edits;
    } else {
      assert longer == edits;
    }
  }

  /** The edits together last exactly as long as the movie. */
  lemma EditListLasts(lead: nat, play: nat, movie: nat)
    requires lead + play <= movie
    ensures EditSum(EditList(lead, play, movie)) == movie
  {
    var a := Part(lead, -1);
    var b := a + Part(play, 0);
    PartAdds(a, [], lead, -1);
    PartAdds(b, a, play, 0);
    PartAdds(EditList(lead, play, movie), b, movie - lead - play, -1);
  }

  /** The media time playing `t` units into the movie; none while there is silence. */
  function PlayingAt(edits: seq<Edit>, t: int): Option<int>
    decreases |edits|
  {
    if edits == [] then None
    else if t >= edits[0].duration then PlayingAt(edits[1..], t - edits[0].duration)
    else if edits[0].mediaTime < 0 then None
    else Some(edits[0].mediaTime + t)
  }

  lemma PlayingPast(edit: Edit, rest: seq<Edit>, t: int)
    requires t >= edit.duration
    ensures PlayingAt([edit] + rest, t) == PlayingAt(rest, t - edit.duration)
  {
    assert ([edit] + rest)[1..] == rest;
  }

  /** First silence, then the media from its beginning, then silence to the end. */
  lemma EditsPlayInOrder(lead: nat, play: nat, movie: nat, t: nat)
    requires lead + play <= movie && t < movie
    ensures PlayingAt(EditList(lead, play, movie), t) == if lead <= t < lead + play then Some(t - lead) else None
  {
    var closing := Part(movie - lead - play, -1);
    var media := Part(play, 0) + closing;
    if t >= lead {
      if lead > 0 {
        assert EditList(lead, play, movie) == [Edit(lead, -1)] + media;
        PlayingPast(Edit(lead, -1), media, t);
      } else {
        assert EditList(lead, play, movie) == media;
      }
      if t >= lead + play && play > 0 {
        PlayingPast(Edit(play, 0), closing, t - lead);
      }
    }
  }

  /** There are at most three, and none is empty. */
  lemma EditListIsShort(lead: nat, play: nat, movie: nat)
    requires lead + play <= movie
    ensures |EditList(lead, play, movie)| <= 3
    ensures forall i :: 0 <= i < |EditList(lead, play, movie)| ==> EditList(lead, play, movie)[i].duration > 0
  {
  }

  method MakeAudioEdts(samples: seq<Sample>, movie: nat, start: int, rate: SampleRate) returns (edits: seq<Edit>)
    ensures samples == [] || movie == 0 ==> edits == []
    ensures samples != [] && movie > 0 ==>
              var lead := Min(Max(0, samples[0].pts - start), movie);
              edits == EditList(lead, Min(FrameSum(samples, |samples|) * UNITS / rate, movie - lead), movie)
  {
    if samples == [] || movie == 0 { return []; }
    var frames := 0;
    for i := 0 to |samples|
      invariant frames == FrameSum(samples, i)
    {
      frames := frames + Max(1, samples[i].frames);
    }
    var lead: nat := Min(Max(0, samples[0].pts - start), movie);
    edits := Part(lead, -1);
    var cursor := lead;
    var play: nat := Min(frames * UNITS / rate, movie - lead);
    if play > 0 {
      edits := edits + [Edit(play, 0)];
      cursor := cursor + play;
    }
    if cursor < movie {
      edits := edits + [Edit(movie - cursor, -1)];
    }
  }
}
