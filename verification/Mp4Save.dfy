/** A whole save: packets and audio tracks in, a file out in which a player finds them. */
module Mp4Save {
  import opened Basics
  import opened Arithmetic
  import opened AnnexB
  import opened BufferedWriter
  import opened Mp4File
  import opened Mp4Movie

  /** `duration` is what the encoder reported, used for the last packet alone. */
  datatype Packet = Packet(bytes: Bytes, inMemory: bool, pts: int, duration: int)

  datatype AudioSample = AudioSample(payload: Bytes, frames: nat)

  // -------------------------------------------------------------------- planning

  function SampleOf(p: Packet): VideoSample {
    VideoSample(p.bytes, p.inMemory, Writable(Parse(p.bytes, 0)))
  }

  /** The packet holds a unit to write. */
  predicate IsWritten(p: Packet) {
    AvccSize(SampleOf(p).spans) > 0
  }

  function Kept(packets: seq<Packet>): seq<Packet> {
    Filtered(packets, IsWritten)
  }

  function VideoSamples(kept: seq<Packet>): seq<VideoSample> {
    seq(|kept|, i requires 0 <= i < |kept| => SampleOf(kept[i]))
  }

  function VideoDuration(kept: seq<Packet>, i: nat, fps: int): (d: nat)
    requires i < |kept|
    ensures d < U32
  {
    if i + 1 < |kept| then DurationBetween(kept[i].pts, kept[i + 1].pts) else FinalDuration(kept[i].duration, fps)
  }

  function VideoInfo(kept: seq<Packet>, i: nat, fps: int): SampleInfo
    requires i < |kept|
  {
    SampleInfo(AvccSize(SampleOf(kept[i]).spans), VideoDuration(kept, i, fps), 0)
  }

  function VideoPlan(kept: seq<Packet>, fps: int): seq<SampleInfo> {
    seq(|kept|, i requires 0 <= i < |kept| => VideoInfo(kept, i, fps))
  }

  function AudioPlan(track: seq<AudioSample>): seq<SampleInfo> {
    seq(|track|, i requires 0 <= i < |track| => SampleInfo(|track[i].payload|, track[i].frames, 0))
  }

  function AudioPayloads(track: seq<AudioSample>): seq<Bytes> {
    seq(|track|, i requires 0 <= i < |track| => track[i].payload)
  }

  function AllAudio(audio: seq<seq<AudioSample>>): seq<seq<Bytes>> {
    seq(|audio|, k requires 0 <= k < |audio| => AudioPayloads(audio[k]))
  }

  /** The tracks of the movie: video, then audio. */
  function Tracks(kept: seq<Packet>, audio: seq<seq<AudioSample>>): seq<seq<Bytes>> {
    [VideoPayloads(VideoSamples(kept))] + AllAudio(audio)
  }

  function Plans(kept: seq<Packet>, fps: int, audio: seq<seq<AudioSample>>): seq<seq<SampleInfo>> {
    [VideoPlan(kept, fps)] + seq(|audio|, k requires 0 <= k < |audio| => AudioPlan(audio[k]))
  }

  /** The plan of a track gives each sample its length. */
  ghost predicate Sized(plan: seq<SampleInfo>, track: seq<Bytes>) {
    |plan| == |track| && forall i :: 0 <= i < |plan| ==> plan[i].size == |track[i]|
  }

  ghost predicate AllSized(plans: seq<seq<SampleInfo>>, tracks: seq<seq<Bytes>>) {
    |plans| == |tracks| && forall k :: 0 <= k < |plans| ==> Sized(plans[k], tracks[k])
  }

  lemma VideoIsSized(kept: seq<Packet>, fps: int)
    ensures Sized(VideoPlan(kept, fps), VideoPayloads(VideoSamples(kept)))
  {
    forall i | 0 <= i < |kept|
      ensures VideoPlan(kept, fps)[i].size == |VideoPayloads(VideoSamples(kept))[i]|
    {
      PlannedSize(kept[i].bytes);
    }
  }

  lemma PlansAreSized(kept: seq<Packet>, fps: int, audio: seq<seq<AudioSample>>)
    ensures AllSized(Plans(kept, fps, audio), Tracks(kept, audio))
  {
    VideoIsSized(kept, fps);
    var plans, tracks := Plans(kept, fps, audio), Tracks(kept, audio);
    forall k | 0 <= k < |plans|
      ensures Sized(plans[k], tracks[k])
    {
      if k > 0 {
        assert plans[k] == AudioPlan(audio[k - 1]) && tracks[k] == AudioPayloads(audio[k - 1]);
      }
    }
  }

  method KeepPackets(packets: seq<Packet>) returns (kept: seq<Packet>)
    ensures kept == Kept(packets)
  {
    kept := [];
    for i := 0 to |packets|
      invariant kept == Kept(packets[..i])
    {
      assert packets[..i + 1][..i] == packets[..i];
      if IsWritten(packets[i]) {
        kept := kept + [packets[i]];
      }
    }
    assert packets[..|packets|] == packets;
  }

  // Each sample's duration is the distance to the next one; the last takes the packet's own.
  method PlanVideo(kept: seq<Packet>, fps: int) returns (plan: seq<SampleInfo>)
    ensures plan == VideoPlan(kept, fps)
  {
    plan := [];
    for i := 0 to |kept|
      invariant |plan| == i && forall j :: 0 <= j < i ==> plan[j] == VideoInfo(kept, j, fps)
    {
      var info := VideoInfo(kept, i, fps);
      plan := plan + [info];
    }
  }

  // --------------------------------------------------------------------- placing

  /** Track `k` is laid out behind the ones before it. */
  ghost predicate PlacedAt(track: seq<SampleInfo>, tracks: seq<seq<Bytes>>, start: nat, k: nat)
    requires k < |tracks|
  {
    LaidOut(track, tracks[k], start + |Concat(Flatten(tracks[..k]))|)
  }

  /** The first tracks are laid out, with the durations of their plans. */
  ghost predicate LaidOutSoFar(
    placed: seq<seq<SampleInfo>>, plans: seq<seq<SampleInfo>>, tracks: seq<seq<Bytes>>, start: nat)
  {
    && |placed| <= |plans| == |tracks|
    && forall k :: 0 <= k < |placed| ==> PlacedAt(placed[k], tracks, start, k) && SameTimes(placed[k], plans[k])
  }

  ghost predicate AllLaidOut(
    placed: seq<seq<SampleInfo>>, plans: seq<seq<SampleInfo>>, tracks: seq<seq<Bytes>>, start: nat)
  {
    |placed| == |tracks| && LaidOutSoFar(placed, plans, tracks, start)
  }

  ghost predicate SameTimes(placed: seq<SampleInfo>, plan: seq<SampleInfo>) {
    Planned(placed) == Planned(plan)
  }

  lemma OneMoreTrack(
    placed: seq<seq<SampleInfo>>, track: seq<SampleInfo>, plans: seq<seq<SampleInfo>>, tracks: seq<seq<Bytes>>,
    start: nat)
    requires LaidOutSoFar(placed, plans, tracks, start) && |placed| < |tracks|
    requires PlacedAt(track, tracks, start, |placed|) && SameTimes(track, plans[|placed|])
    ensures LaidOutSoFar(placed + [track], plans, tracks, start)
  {
  }

  lemma FlattenGrows(tracks: seq<seq<Bytes>>, k: nat)
    requires k < |tracks|
    ensures Flatten(tracks[..k + 1]) == Flatten(tracks[..k]) + tracks[k]
    ensures |Concat(Flatten(tracks[..k + 1]))| == |Concat(Flatten(tracks[..k]))| + |Concat(tracks[k])|
  {
    assert tracks[..k + 1][..k] == tracks[..k];
    ConcatSplits(Flatten(tracks[..k]), tracks[k]);
  }

  method TotalSize(plan: seq<SampleInfo>, ghost track: seq<Bytes>) returns (size: nat)
    requires Sized(plan, track)
    ensures size == |Concat(track)|
  {
    size := 0;
    for i := 0 to |plan|
      invariant size == |Concat(track[..i])|
    {
      ConcatGrows(track, i);
      size := size + plan[i].size;
    }
    assert track[..|plan|] == track;
  }

  method MediaSize(plans: seq<seq<SampleInfo>>, ghost tracks: seq<seq<Bytes>>) returns (size: nat)
    requires AllSized(plans, tracks)
    ensures size == |Concat(Flatten(tracks))|
  {
    size := 0;
    for k := 0 to |plans|
      invariant size == |Concat(Flatten(tracks[..k]))|
    {
      FlattenGrows(tracks, k);
      assert Sized(plans[k], tracks[k]);
      var more := TotalSize(plans[k], tracks[k]);
      size := size + more;
    }
    assert tracks[..|plans|] == tracks;
  }

  method PlaceTracks(plans: seq<seq<SampleInfo>>, start: nat, ghost tracks: seq<seq<Bytes>>)
    returns (placed: seq<seq<SampleInfo>>)
    requires AllSized(plans, tracks)
    ensures AllLaidOut(placed, plans, tracks, start)
  {
    placed := [];
    var next := start;
    for k := 0 to |plans|
      invariant |placed| == k && LaidOutSoFar(placed, plans, tracks, start)
      invariant next == start + |Concat(Flatten(tracks[..k]))|
    {
      FlattenGrows(tracks, k);
      assert Sized(plans[k], tracks[k]);
      var track, end := PlaceTrack(plans[k], next, tracks[k]);
      OneMoreTrack(placed, track, plans, tracks, start);
      placed, next := placed + [track], end;
    }
  }

  // --------------------------------------------------------------------- playing

  lemma {:induction false} FlattenSplits(tracks: seq<seq<Bytes>>, k: nat)
    requires k < |tracks|
    ensures var first := |Flatten(tracks[..k])|;
            && first + |tracks[k]| <= |Flatten(tracks)|
            && Flatten(tracks)[..first] == Flatten(tracks[..k])
            && Flatten(tracks)[first..first + |tracks[k]|] == tracks[k]
  {
    var n := |tracks| - 1;
    if k < n {
      FlattenSplits(tracks[..n], k);
      assert tracks[..n][..k] == tracks[..k];
      var first, front := |Flatten(tracks[..k])|, Flatten(tracks[..n]);
      assert Flatten(tracks)[first..first + |tracks[k]|] == front[first..first + |tracks[k]|];
      assert Flatten(tracks)[..first] == front[..first];
    }
  }

  /** Every sample lies in the file where its info says. */
  lemma {:induction false} SampleIsInFile(
    file: Bytes, moov: Bytes, placed: seq<SampleInfo>, tracks: seq<seq<Bytes>>, k: nat, i: nat)
    requires file == File(FtypBox(), Flatten(tracks), moov) && k < |tracks| && i < |tracks[k]|
    requires PlacedAt(placed, tracks, MediaStart(FtypBox(), Flatten(tracks)), k)
    ensures i < |placed| && placed[i].size == |tracks[k][i]| && InFile(file, placed[i].fileOffset, tracks[k][i])
  {
    var payloads, first := Flatten(tracks), |Flatten(tracks[..k])|;
    var start := MediaStart(FtypBox(), payloads);
    FlattenSplits(tracks, k);
    PlannedInTrack(payloads, start, first, placed, i);
    SampleAtPosition(file, FtypBox(), payloads, moov, first + i, placed[i].fileOffset);
    assert payloads[first..first + |tracks[k]|][i] == payloads[first + i];
  }

  /** From the file's bytes alone, a player gets sample `i` of track `k`. */
  lemma {:induction false} PlayerGetsEverySample(
    file: Bytes, mvhd: Bytes, heads: seq<TrackHeads>, placed: seq<seq<SampleInfo>>,
    plans: seq<seq<SampleInfo>>, tracks: seq<seq<Bytes>>, k: nat, i: nat)
    requires MovieFits(mvhd, heads, placed, Concat(Flatten(tracks)))
    requires AllLaidOut(placed, plans, tracks, MediaStart(FtypBox(), Flatten(tracks)))
    requires k < |tracks| && i < |tracks[k]| && |tracks[k][i]| < U32
    requires file == File(FtypBox(), Flatten(tracks), MoovOf(mvhd, heads, placed)) && |file| < U64
    ensures Played(file, k, i) == Some(tracks[k][i])
  {
    var infos := placed[k];
    assert PlacedAt(infos, tracks, MediaStart(FtypBox(), Flatten(tracks)), k);
    SampleIsInFile(file, MoovOf(mvhd, heads, placed), infos, tracks, k, i);
    TablesAreFound(mvhd, heads, placed, Flatten(tracks), k);
    TrackIsShort(mvhd, heads, placed, k);
    TablesLocateSamples(infos, i);
    LocatedSampleIsRead(file, StszOf(infos), StscBox(), Co64Of(infos), i, infos[i], tracks[k][i]);
  }

  /** And the planned durations of track `k`. */
  lemma {:induction false} PlayerGetsEveryDuration(
    file: Bytes, mvhd: Bytes, heads: seq<TrackHeads>, placed: seq<seq<SampleInfo>>,
    plans: seq<seq<SampleInfo>>, tracks: seq<seq<Bytes>>, start: nat, k: nat)
    requires MovieFits(mvhd, heads, placed, Concat(Flatten(tracks)))
    requires AllLaidOut(placed, plans, tracks, start) && k < |tracks|
    requires forall info <- plans[k] :: info.duration < U32
    requires file == File(FtypBox(), Flatten(tracks), MoovOf(mvhd, heads, placed))
    ensures PlayedDurations(file, k) == Some(Planned(plans[k]))
  {
    var infos := placed[k];
    assert PlacedAt(infos, tracks, start, k) && SameTimes(infos, plans[k]);
    TablesAreFound(mvhd, heads, placed, Flatten(tracks), k);
    TrackIsShort(mvhd, heads, placed, k);
    PlannedFits(infos, plans[k]);
    SttsReadsBack(infos);
  }

  /** And how many samples there are. */
  lemma {:induction false} PlayerCountsSamples(
    file: Bytes, mvhd: Bytes, heads: seq<TrackHeads>, placed: seq<seq<SampleInfo>>, tracks: seq<seq<Bytes>>, k: nat)
    requires MovieFits(mvhd, heads, placed, Concat(Flatten(tracks))) && k < |placed|
    requires file == File(FtypBox(), Flatten(tracks), MoovOf(mvhd, heads, placed))
    ensures PlayedCount(file, k) == Some(|placed[k]|)
  {
    TablesAreFound(mvhd, heads, placed, Flatten(tracks), k);
    TrackIsShort(mvhd, heads, placed, k);
    StszCountReadsBack(placed[k]);
  }

  lemma {:induction false} TrackIsShort(mvhd: Bytes, heads: seq<TrackHeads>, placed: seq<seq<SampleInfo>>, k: nat)
    requires |heads| == |placed| && k < |placed| && |MoovOf(mvhd, heads, placed)| < U32
    requires IsPlain(mvhd) && forall h <- heads :: HeadsPlain(h)
    ensures |placed[k]| < U32
  {
    TrakIsFound(mvhd, heads, placed, k);
    TablesInTrak(heads[k], placed[k]);
    TablesFit(heads[k], placed[k]);
    ColumnSize(Sizes(placed[k]), false);
  }

  lemma {:induction false} PlannedFits(placed: seq<SampleInfo>, plan: seq<SampleInfo>)
    requires SameTimes(placed, plan) && forall info <- plan :: info.duration < U32
    ensures forall info <- placed :: info.duration < U32
  {
    forall i | 0 <= i < |placed|
      ensures placed[i].duration < U32
    {
      assert Planned(placed)[i] == Planned(plan)[i];
      assert plan[i] in plan;
    }
  }

  // ---------------------------------------------------------------- the whole save

  /** The units found in a packet that belong in a sample. */
  function PacketUnits(p: Packet): seq<Bytes> {
    SampleUnits(Payloads(p.bytes, Parse(p.bytes, 0)))
  }

  /** A packet is kept, in its place, exactly when it has a unit for a sample. */
  lemma {:induction false} WrittenPacketsAreKept(before: seq<Packet>, p: Packet, after: seq<Packet>)
    ensures Kept(before + [p] + after) == Kept(before) + (if PacketUnits(p) != [] then [p] else []) + Kept(after)
  {
    FilteredJoins(before + [p], after, IsWritten);
    FilteredJoins(before, [p], IsWritten);
    WrittenIsNotEmpty(p);
    assert [p][..0] == [];
  }

  lemma WrittenIsNotEmpty(p: Packet)
    ensures IsWritten(p) <==> PacketUnits(p) != []
  {
    WritableByType(p.bytes);
  }

  /** A player decodes sample `i` of the video to the packet's units, without parameter sets
      and delimiters. */
  ghost predicate PlaysPacket(file: Bytes, i: nat, p: Packet) {
    var sample := Played(file, 0, i);
    sample.Some? && Unprefixed(sample.value) == Some(PacketUnits(p))
  }

  /** When the packet is a stream of separable units, those are the units a player gets. */
  lemma StreamIsPlayed(file: Bytes, i: nat, p: Packet, nals: seq<Nal>)
    requires PlaysPacket(file, i, p) && p.bytes == Stream(nals) && AllSeparable(nals)
    ensures Unprefixed(Played(file, 0, i).value) == Some(SampleUnits(UnitsOf(nals)))
  {
    SeparableUnitsComeBack(nals);
  }

  predicate PacketFits(p: Packet) {
    |p.bytes| < U32 && AvccSize(SampleOf(p).spans) < U32
  }

  /** A sample lasts until the next stamp, at least one unit and at most what the field holds. */
  predicate LastsUntil(duration: nat, pts: int, next: int) {
    && (0 < next - pts < U32 ==> duration == next - pts)
    && (next <= pts ==> duration == 1)
    && (next - pts >= U32 ==> duration == U32 - 1)
  }

  /** The last sample lasts as long as its packet says, or one frame. */
  predicate LastsItself(duration: nat, own: int, fps: int) {
    && (0 < own < U32 ==> duration == own)
    && (own >= U32 ==> duration == U32 - 1)
    && (own <= 0 && 1 <= fps <= 10_000_000 ==> duration == 10_000_000 / fps)
  }

  function SumOf(durations: seq<nat>): nat {
    if durations == [] then 0 else SumOf(durations[..|durations| - 1]) + durations[|durations| - 1]
  }

  predicate Increasing(kept: seq<Packet>, n: nat)
    requires n < |kept|
  {
    forall i :: 0 < i <= n ==> 0 < kept[i].pts - kept[i - 1].pts < U32
  }

  /** The durations follow the packets' stamps, so that sample `n` begins as long after the first
      as its stamp says. */
  ghost predicate FollowsStamps(durations: seq<nat>, kept: seq<Packet>, fps: int) {
    && |durations| == |kept|
    && (forall i :: 0 <= i < |kept| - 1 ==> LastsUntil(durations[i], kept[i].pts, kept[i + 1].pts))
    && (kept != [] ==> LastsItself(durations[|kept| - 1], kept[|kept| - 1].duration, fps))
    && (forall n :: 0 <= n < |kept| && Increasing(kept, n) ==> SumOf(durations[..n]) == kept[n].pts - kept[0].pts)
  }

  lemma {:induction false} SumFollowsStamps(durations: seq<nat>, kept: seq<Packet>, n: nat)
    requires |durations| == |kept| && n < |kept| && Increasing(kept, n)
    requires forall i :: 0 <= i < |kept| - 1 ==> LastsUntil(durations[i], kept[i].pts, kept[i + 1].pts)
    ensures SumOf(durations[..n]) == kept[n].pts - kept[0].pts
  {
    if n > 0 {
      SumFollowsStamps(durations, kept, n - 1);
      assert durations[..n][..n - 1] == durations[..n - 1];
      assert LastsUntil(durations[n - 1], kept[n - 1].pts, kept[n].pts);
    }
  }

  lemma {:induction false} PlanAt(kept: seq<Packet>, fps: int, i: nat)
    requires i < |kept|
    ensures var d := Planned(VideoPlan(kept, fps))[i];
            if i < |kept| - 1 then LastsUntil(d, kept[i].pts, kept[i + 1].pts) else LastsItself(d, kept[i].duration, fps)
  {
    var d := VideoDuration(kept, i, fps);
    assert Planned(VideoPlan(kept, fps))[i] == Max(1, d);
    if i == |kept| - 1 && kept[i].duration <= 0 && 1 <= fps <= 10_000_000 {
      assert 1 <= 10_000_000 / fps <= 10_000_000 by {
        DivisionMonotone(fps, 10_000_000, fps);
        DivisionBounds(10_000_000, fps);
        DivisionIsUnique(fps, 1, fps);
        MulMonotone(1, fps, 10_000_000 / fps);
      }
    }
  }

  lemma {:induction false} PlanFollowsStamps(kept: seq<Packet>, fps: int)
    ensures FollowsStamps(Planned(VideoPlan(kept, fps)), kept, fps)
  {
    var durations := Planned(VideoPlan(kept, fps));
    forall i | 0 <= i < |kept| - 1
      ensures LastsUntil(durations[i], kept[i].pts, kept[i + 1].pts)
    {
      PlanAt(kept, fps, i);
    }
    if kept != [] {
      PlanAt(kept, fps, |kept| - 1);
    }
    forall n | 0 <= n < |kept| && Increasing(kept, n)
      ensures SumOf(durations[..n]) == kept[n].pts - kept[0].pts
    {
      SumFollowsStamps(durations, kept, n);
    }
  }

  /** A player gets every packet of the video, and the times they are shown for. */
  ghost predicate PlaysVideo(file: Bytes, kept: seq<Packet>, fps: int) {
    && PlayedCount(file, 0) == Some(|kept|)
    && (forall i :: 0 <= i < |kept| && PacketFits(kept[i]) ==> PlaysPacket(file, i, kept[i]))
    && PlaysStamps(file, kept, fps)
  }

  predicate AllFit(track: seq<AudioSample>) {
    forall s <- track :: s.frames < U32
  }

  /** A sample lasts for its frames, at least one. */
  ghost predicate FollowsFrames(durations: seq<nat>, track: seq<AudioSample>) {
    |durations| == |track| && forall i :: 0 <= i < |track| ==> durations[i] == Max(1, track[i].frames)
  }

  ghost predicate PlaysSamples(file: Bytes, k: nat, track: seq<AudioSample>) {
    forall i :: 0 <= i < |track| && |track[i].payload| < U32 ==> Played(file, k, i) == Some(track[i].payload)
  }

  ghost predicate PlaysFrames(file: Bytes, k: nat, track: seq<AudioSample>) {
    PlayedDurations(file, k).Some? && FollowsFrames(PlayedDurations(file, k).value, track)
  }

  /** A player gets every sample of an audio track, and how long each lasts. */
  ghost predicate PlaysAudio(file: Bytes, k: nat, track: seq<AudioSample>) {
    && PlayedCount(file, k) == Some(|track|) && PlaysSamples(file, k, track)
    && (AllFit(track) ==> PlaysFrames(file, k, track))
  }

  ghost predicate Plays(file: Bytes, kept: seq<Packet>, fps: int, audio: seq<seq<AudioSample>>) {
    PlaysVideo(file, kept, fps) && forall k :: 0 <= k < |audio| ==> PlaysAudio(file, k + 1, audio[k])
  }

  /** What a save leaves: the file, whose movie box holds the tracks as they were placed. */
  ghost predicate Saved(
    file: Bytes, mvhd: Bytes, heads: seq<TrackHeads>, placed: seq<seq<SampleInfo>>,
    kept: seq<Packet>, fps: int, audio: seq<seq<AudioSample>>)
  {
    var tracks := Tracks(kept, audio);
    && AllLaidOut(placed, Plans(kept, fps, audio), tracks, MediaStart(FtypBox(), Flatten(tracks)))
    && |heads| == |placed| && IsPlain(mvhd) && (forall h <- heads :: HeadsPlain(h))
    && file == File(FtypBox(), Flatten(tracks), MoovOf(mvhd, heads, placed))
  }

  lemma {:induction false} MediaFits(file: Bytes, payloads: seq<Bytes>, moov: Bytes)
    requires file == File(FtypBox(), payloads, moov) && |file| < U64
    ensures |Concat(payloads)| + 16 < U64
  {
    assert |FtypBox()| >= 16;
  }

  lemma {:induction false} SavedCount(
    file: Bytes, mvhd: Bytes, heads: seq<TrackHeads>, placed: seq<seq<SampleInfo>>,
    kept: seq<Packet>, fps: int, audio: seq<seq<AudioSample>>, k: nat, count: nat)
    requires Saved(file, mvhd, heads, placed, kept, fps, audio) && k <= |audio|
    requires count == |Tracks(kept, audio)[k]|
    requires |file| < U64 && |MoovOf(mvhd, heads, placed)| < U32
    ensures PlayedCount(file, k) == Some(count)
  {
    var tracks := Tracks(kept, audio);
    MediaFits(file, Flatten(tracks), MoovOf(mvhd, heads, placed));
    assert PlacedAt(placed[k], tracks, MediaStart(FtypBox(), Flatten(tracks)), k);
    PlayerCountsSamples(file, mvhd, heads, placed, tracks, k);
  }

  lemma {:induction false} SavedPacketPlays(
    file: Bytes, mvhd: Bytes, heads: seq<TrackHeads>, placed: seq<seq<SampleInfo>>,
    kept: seq<Packet>, fps: int, audio: seq<seq<AudioSample>>, i: nat)
    requires Saved(file, mvhd, heads, placed, kept, fps, audio) && i < |kept| && PacketFits(kept[i])
    requires |file| < U64 && |MoovOf(mvhd, heads, placed)| < U32
    ensures PlaysPacket(file, i, kept[i])
  {
    var tracks, plans := Tracks(kept, audio), Plans(kept, fps, audio);
    MediaFits(file, Flatten(tracks), MoovOf(mvhd, heads, placed));
    SampleReadsBack(kept[i].bytes);
    WritableByType(kept[i].bytes);
    assert tracks[0][i] == VideoPayload(SampleOf(kept[i]));
    PlayerGetsEverySample(file, mvhd, heads, placed, plans, tracks, 0, i);
  }

  ghost predicate PlaysStamps(file: Bytes, kept: seq<Packet>, fps: int) {
    PlayedDurations(file, 0).Some? && FollowsStamps(PlayedDurations(file, 0).value, kept, fps)
  }

  lemma {:induction false} VideoPlanFits(kept: seq<Packet>, fps: int)
    ensures forall info <- VideoPlan(kept, fps) :: info.duration < U32
  {
  }

  lemma {:induction false} SavedVideoDurations(
    file: Bytes, mvhd: Bytes, heads: seq<TrackHeads>, placed: seq<seq<SampleInfo>>,
    kept: seq<Packet>, fps: int, audio: seq<seq<AudioSample>>)
    requires Saved(file, mvhd, heads, placed, kept, fps, audio)
    requires |file| < U64 && |MoovOf(mvhd, heads, placed)| < U32
    ensures PlaysStamps(file, kept, fps)
  {
    var tracks, plans := Tracks(kept, audio), Plans(kept, fps, audio);
    VideoPlanFits(kept, fps);
    assert plans[0] == VideoPlan(kept, fps);
    MediaFits(file, Flatten(tracks), MoovOf(mvhd, heads, placed));
    PlayerGetsEveryDuration(file, mvhd, heads, placed, plans, tracks, MediaStart(FtypBox(), Flatten(tracks)), 0);
    PlanFollowsStamps(kept, fps);
  }

  lemma {:induction false} SavedVideoPlays(
    file: Bytes, mvhd: Bytes, heads: seq<TrackHeads>, placed: seq<seq<SampleInfo>>,
    kept: seq<Packet>, fps: int, audio: seq<seq<AudioSample>>)
    requires Saved(file, mvhd, heads, placed, kept, fps, audio)
    requires |file| < U64 && |MoovOf(mvhd, heads, placed)| < U32
    ensures PlaysVideo(file, kept, fps)
  {
    forall i | 0 <= i < |kept| && PacketFits(kept[i])
      ensures PlaysPacket(file, i, kept[i])
    {
      SavedPacketPlays(file, mvhd, heads, placed, kept, fps, audio, i);
    }
    SavedCount(file, mvhd, heads, placed, kept, fps, audio, 0, |kept|);
    SavedVideoDurations(file, mvhd, heads, placed, kept, fps, audio);
  }

  lemma {:induction false} AudioTrackIs(kept: seq<Packet>, fps: int, audio: seq<seq<AudioSample>>, k: nat)
    requires k < |audio|
    ensures |Tracks(kept, audio)| == |Plans(kept, fps, audio)| == |audio| + 1
    ensures Tracks(kept, audio)[k + 1] == AudioPayloads(audio[k])
    ensures Plans(kept, fps, audio)[k + 1] == AudioPlan(audio[k])
  {
  }

  lemma {:induction false} SavedAudioSample(
    file: Bytes, mvhd: Bytes, heads: seq<TrackHeads>, placed: seq<seq<SampleInfo>>,
    kept: seq<Packet>, fps: int, audio: seq<seq<AudioSample>>, k: nat, i: nat)
    requires Saved(file, mvhd, heads, placed, kept, fps, audio)
    requires k < |audio| && i < |audio[k]| && |audio[k][i].payload| < U32
    requires |file| < U64 && |MoovOf(mvhd, heads, placed)| < U32
    ensures Played(file, k + 1, i) == Some(audio[k][i].payload)
  {
    var tracks, plans := Tracks(kept, audio), Plans(kept, fps, audio);
    MediaFits(file, Flatten(tracks), MoovOf(mvhd, heads, placed));
    AudioTrackIs(kept, fps, audio, k);
    PlayerGetsEverySample(file, mvhd, heads, placed, plans, tracks, k + 1, i);
  }

  lemma {:induction false} AudioPlanFits(track: seq<AudioSample>)
    requires AllFit(track)
    ensures forall info <- AudioPlan(track) :: info.duration < U32
    ensures FollowsFrames(Planned(AudioPlan(track)), track)
  {
    forall i | 0 <= i < |track|
      ensures AudioPlan(track)[i].duration < U32
    {
      assert track[i] in track;
    }
  }

  lemma {:induction false} SavedAudioDurations(
    file: Bytes, mvhd: Bytes, heads: seq<TrackHeads>, placed: seq<seq<SampleInfo>>,
    kept: seq<Packet>, fps: int, audio: seq<seq<AudioSample>>, k: nat)
    requires Saved(file, mvhd, heads, placed, kept, fps, audio)
    requires k < |audio| && AllFit(audio[k])
    requires |file| < U64 && |MoovOf(mvhd, heads, placed)| < U32
    ensures PlaysFrames(file, k + 1, audio[k])
  {
    var tracks, plans := Tracks(kept, audio), Plans(kept, fps, audio);
    AudioPlanFits(audio[k]);
    AudioTrackIs(kept, fps, audio, k);
    MediaFits(file, Flatten(tracks), MoovOf(mvhd, heads, placed));
    PlayerGetsEveryDuration(file, mvhd, heads, placed, plans, tracks, MediaStart(FtypBox(), Flatten(tracks)), k + 1);
  }

  lemma {:induction false} SavedAudioSamples(
    file: Bytes, mvhd: Bytes, heads: seq<TrackHeads>, placed: seq<seq<SampleInfo>>,
    kept: seq<Packet>, fps: int, audio: seq<seq<AudioSample>>, k: nat)
    requires Saved(file, mvhd, heads, placed, kept, fps, audio) && k < |audio|
    requires |file| < U64 && |MoovOf(mvhd, heads, placed)| < U32
    ensures PlaysSamples(file, k + 1, audio[k])
  {
    forall i | 0 <= i < |audio[k]| && |audio[k][i].payload| < U32
      ensures Played(file, k + 1, i) == Some(audio[k][i].payload)
    {
      SavedAudioSample(file, mvhd, heads, placed, kept, fps, audio, k, i);
    }
  }

  lemma {:induction false} AudioTrackLength(kept: seq<Packet>, audio: seq<seq<AudioSample>>, k: nat)
    requires k < |audio|
    ensures k + 1 < |Tracks(kept, audio)| && |Tracks(kept, audio)[k + 1]| == |audio[k]|
  {
    assert Tracks(kept, audio)[k + 1] == AllAudio(audio)[k];
  }

  lemma {:induction false} SavedAudioCount(
    file: Bytes, mvhd: Bytes, heads: seq<TrackHeads>, placed: seq<seq<SampleInfo>>,
    kept: seq<Packet>, fps: int, audio: seq<seq<AudioSample>>, k: nat)
    requires Saved(file, mvhd, heads, placed, kept, fps, audio) && k < |audio|
    requires |file| < U64 && |MoovOf(mvhd, heads, placed)| < U32
    ensures PlayedCount(file, k + 1) == Some(|audio[k]|)
  {
    AudioTrackLength(kept, audio, k);
    SavedCount(file, mvhd, heads, placed, kept, fps, audio, k + 1, |audio[k]|);
  }

  lemma {:induction false} SavedAudioPlays(
    file: Bytes, mvhd: Bytes, heads: seq<TrackHeads>, placed: seq<seq<SampleInfo>>,
    kept: seq<Packet>, fps: int, audio: seq<seq<AudioSample>>, k: nat)
    requires Saved(file, mvhd, heads, placed, kept, fps, audio) && k < |audio|
    requires |file| < U64 && |MoovOf(mvhd, heads, placed)| < U32
    ensures PlaysAudio(file, k + 1, audio[k])
  {
    SavedAudioSamples(file, mvhd, heads, placed, kept, fps, audio, k);
    SavedAudioCount(file, mvhd, heads, placed, kept, fps, audio, k);
    if AllFit(audio[k]) {
      SavedAudioDurations(file, mvhd, heads, placed, kept, fps, audio, k);
    }
  }

  lemma {:induction false} FlattenFirst(first: seq<Bytes>, rest: seq<seq<Bytes>>)
    ensures Flatten([first] + rest) == first + Flatten(rest)
    decreases |rest|
  {
    if rest == [] {
      assert [first] + rest == [first] && [first][..0] == [];
      assert Flatten([first]) == Flatten([]) + first;
    } else {
      var n := |rest| - 1;
      assert ([first] + rest)[..|rest|] == [first] + rest[..n];
      FlattenFirst(first, rest[..n]);
      Regroup(first, Flatten(rest[..n]), rest[n]);
    }
  }

  lemma MediaStartOf(size: nat, payloads: seq<Bytes>)
    requires size == |Concat(payloads)|
    ensures MediaStart(FtypBox(), payloads) == |FtypBox()| + |MdatHeader(size)|
  {
  }

  /** Plans the samples, places them, builds the movie box and writes the file. When that
      succeeds, and the movie box and the file fit their size fields, a player that knows the
      file's bytes alone gets every video and audio sample of the fields' width, and every
      duration. `mvhd` and `heads` are the boxes around the tables. */
  method Save(
    packets: seq<Packet>, fps: int, audio: seq<seq<AudioSample>>, mvhd: Bytes, heads: seq<TrackHeads>,
    capacity: nat, inMemory: bool)
    returns (file: FileWriter?, ok: bool, ghost moov: Bytes)
    requires |heads| == |audio| + 1 && IsPlain(mvhd) && forall h <- heads :: HeadsPlain(h)
    ensures ok ==> file != null && fresh(file) && Kept(packets) != []
    ensures ok ==> file.contents == File(FtypBox(), Flatten(Tracks(Kept(packets), audio)), moov)
    ensures ok && |file.contents| < U64 && |moov| < U32 ==> Plays(file.contents, Kept(packets), fps, audio)
  {
    file, ok, moov := null, false, [];
    var kept := KeepPackets(packets);
    if kept == [] { return; }
    var video := PlanVideo(kept, fps);
    var plans := [video] + seq(|audio|, k requires 0 <= k < |audio| => AudioPlan(audio[k]));
    ghost var tracks := Tracks(kept, audio);
    PlansAreSized(kept, fps, audio);
    var mediaSize := MediaSize(plans, tracks);
    MediaStartOf(mediaSize, Flatten(tracks));
    var placed := PlaceTracks(plans, |FtypBox()| + |MdatHeader(mediaSize)|, tracks);
    var movie := MakeMoov(mvhd, heads, placed);
    moov := movie;
    FlattenFirst(VideoPayloads(VideoSamples(kept)), AllAudio(audio));
    file, ok := Mux(FtypBox(), movie, VideoSamples(kept), AllAudio(audio), mediaSize, capacity, inMemory);
    if ok && |file.contents| < U64 && |movie| < U32 {
      assert Saved(file.contents, mvhd, heads, placed, kept, fps, audio);
      SavedVideoPlays(file.contents, mvhd, heads, placed, kept, fps, audio);
      forall k | 0 <= k < |audio|
        ensures PlaysAudio(file.contents, k + 1, audio[k])
      {
        SavedAudioPlays(file.contents, mvhd, heads, placed, kept, fps, audio, k);
      }
    }
  }
}
