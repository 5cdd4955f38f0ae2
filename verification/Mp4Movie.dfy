/** The movie box around the sample tables, and a player that knows nothing but the file's
    bytes: it walks the boxes of ISO/IEC 14496-12 to a track's tables and follows them. */
module Mp4Movie {
  import opened Basics
  import opened AnnexB
  import opened Mp4File

  const FTYP: Bytes := [0x66, 0x74, 0x79, 0x70]
  const MOOV: Bytes := [0x6D, 0x6F, 0x6F, 0x76]
  const TRAK: Bytes := [0x74, 0x72, 0x61, 0x6B]
  const MDIA: Bytes := [0x6D, 0x64, 0x69, 0x61]
  const MINF: Bytes := [0x6D, 0x69, 0x6E, 0x66]
  const STBL: Bytes := [0x73, 0x74, 0x62, 0x6C]

  function BoxOf(kind: Bytes, payload: Bytes): Bytes
    requires |kind| == 4
  {
    U32Bytes((|payload| + 8) % U32) + kind + payload
  }

  // ---------------------------------------------------------------- the player

  /** Cuts a run of boxes apart by their declared sizes. */
  function Boxes(b: Bytes): Option<seq<Bytes>>
    decreases |b|
  {
    if b == [] then Some([])
    else
      match DeclaredSize(b)
      case None => None
      case Some(size) =>
        if size < 8 || size > |b| then None
        else
          match Boxes(b[size..])
          case None => None
          case Some(rest) => Some([b[..size]] + rest)
  }

  function Kind(b: Bytes): Bytes {
    if |b| < 8 then [] else b[4..8]
  }

  function Body(b: Bytes): Bytes {
    if |b| < 8 then [] else b[8..]
  }

  /** Box number `n` of a kind. */
  function Find(boxes: seq<Bytes>, kind: Bytes, n: nat): Option<Bytes> {
    if boxes == [] then None
    else if Kind(boxes[0]) != kind then Find(boxes[1..], kind, n)
    else if n == 0 then Some(boxes[0])
    else Find(boxes[1..], kind, n - 1)
  }

  /** Box number `n` of a kind among the boxes in `b`. */
  function FindIn(b: Option<Bytes>, kind: Bytes, n: nat): Option<Bytes> {
    if b.None? then None
    else
      match Boxes(b.value)
      case None => None
      case Some(boxes) => Find(boxes, kind, n)
  }

  function Inside(b: Option<Bytes>): Option<Bytes> {
    if b.Some? then Some(Body(b.value)) else None
  }

  /** A table of a track, by mdia, minf and stbl. */
  function TableIn(trak: Option<Bytes>, kind: Bytes): Option<Bytes> {
    var stbl := FindIn(Inside(FindIn(Inside(FindIn(Inside(trak), MDIA, 0)), MINF, 0)), STBL, 0);
    FindIn(Inside(stbl), kind, 0)
  }

  /** A table of track `k` of the file. */
  function TrackTable(file: Bytes, k: nat, kind: Bytes): Option<Bytes> {
    TableIn(FindIn(Inside(FindIn(Some(file), MOOV, 0)), TRAK, k), kind)
  }

  /** Sample `i` of track `k`. */
  function Played(file: Bytes, k: nat, i: nat): Option<Bytes> {
    match (TrackTable(file, k, STSZ), TrackTable(file, k, STSC), TrackTable(file, k, CO64))
    case (Some(stsz), Some(stsc), Some(co64)) => ReadSample(file, stsz, stsc, co64, i)
    case _ => None
  }

  /** How many samples track `k` has. */
  function PlayedCount(file: Bytes, k: nat): Option<nat> {
    var stsz := TrackTable(file, k, STSZ);
    if stsz.None? then None else Some(SampleCount(stsz.value))
  }

  /** How long each sample of track `k` lasts. */
  function PlayedDurations(file: Bytes, k: nat): Option<seq<nat>> {
    var stts := TrackTable(file, k, STTS);
    if stts.None? then None else ReadDurations(stts.value)
  }

  // -------------------------------------------------------------- boxes come back

  predicate IsBox(b: Bytes) {
    |b| >= 8 && DeclaredSize(b) == Some(|b|)
  }

  lemma DeclaredByFront(b: Bytes, rest: Bytes)
    requires |b| >= 8 && DeclaredSize(b).Some?
    ensures DeclaredSize(b + rest) == DeclaredSize(b)
  {
    assert (b + rest)[..4] == b[..4];
    if U32Value(b[..4]) == 1 {
      assert (b + rest)[8..16] == b[8..16];
    }
  }

  lemma FirstBox(b: Bytes, rest: Bytes, more: seq<Bytes>)
    requires IsBox(b) && Boxes(rest) == Some(more)
    ensures Boxes(b + rest) == Some([b] + more)
  {
    DeclaredByFront(b, rest);
    assert (b + rest)[|b|..] == rest && (b + rest)[..|b|] == b;
  }

  lemma ConcatOne(b: Bytes)
    ensures Concat([b]) == b
  {
    assert Concat([b][..0]) == [];
  }

  lemma {:induction false} BoxesComeBack(boxes: seq<Bytes>)
    requires forall b <- boxes :: IsBox(b)
    ensures Boxes(Concat(boxes)) == Some(boxes)
  {
    if boxes != [] {
      BoxesComeBack(boxes[1..]);
      ConcatSplits([boxes[0]], boxes[1..]);
      ConcatOne(boxes[0]);
      assert [boxes[0]] + boxes[1..] == boxes;
      FirstBox(boxes[0], Concat(boxes[1..]), boxes[1..]);
    }
  }

  lemma WrittenIsBox(kind: Bytes, payload: Bytes)
    requires |kind| == 4 && |payload| + 8 < U32
    ensures var b := BoxOf(kind, payload); IsBox(b) && Kind(b) == kind && Body(b) == payload
    ensures |BoxOf(kind, payload)| == |payload| + 8
  {
    var b := BoxOf(kind, payload);
    assert b == U32Bytes(|payload| + 8) + (kind + payload);
    DeclaredSizeSmall(b, |payload| + 8, kind + payload);
  }

  lemma FullIsBox(kind: Bytes, payload: Bytes)
    requires |kind| == 4 && |payload| + 12 < U32
    ensures FullBox(kind, payload) == BoxOf(kind, [0, 0, 0, 0] + payload)
    ensures IsBox(FullBox(kind, payload)) && Kind(FullBox(kind, payload)) == kind
  {
    var versioned: Bytes := [0, 0, 0, 0] + payload;
    WrittenIsBox(kind, versioned);
    assert U32Bytes((|payload| + 12) % U32) + kind + [0, 0, 0, 0] + payload
        == U32Bytes((|payload| + 12) % U32) + kind + versioned;
  }

  lemma {:induction false} FindPast(front: seq<Bytes>, rest: seq<Bytes>, kind: Bytes, n: nat)
    requires forall b <- front :: Kind(b) != kind
    ensures Find(front + rest, kind, n) == Find(rest, kind, n)
  {
    if front == [] {
      assert front + rest == rest;
    } else {
      assert (front + rest)[1..] == front[1..] + rest;
      FindPast(front[1..], rest, kind, n);
    }
  }

  lemma {:induction false} FindAmongSame(boxes: seq<Bytes>, kind: Bytes, n: nat)
    requires n < |boxes| && forall b <- boxes :: Kind(b) == kind
    ensures Find(boxes, kind, n) == Some(boxes[n])
  {
    if n > 0 {
      FindAmongSame(boxes[1..], kind, n - 1);
    }
  }

  /** A container's boxes are found in it. */
  lemma FindInContainer(kind: Bytes, boxes: seq<Bytes>, wanted: Bytes, n: nat)
    requires |kind| == 4 && |Concat(boxes)| + 8 < U32 && forall b <- boxes :: IsBox(b)
    ensures FindIn(Inside(Some(BoxOf(kind, Concat(boxes)))), wanted, n) == Find(boxes, wanted, n)
    ensures IsBox(BoxOf(kind, Concat(boxes))) && Kind(BoxOf(kind, Concat(boxes))) == kind
  {
    WrittenIsBox(kind, Concat(boxes));
    BoxesComeBack(boxes);
  }

  lemma {:induction false} MemberFits(boxes: seq<Bytes>, b: Bytes)
    requires b in boxes
    ensures |b| <= |Concat(boxes)|
  {
    var n := |boxes| - 1;
    if b != boxes[n] {
      assert b in boxes[..n];
      MemberFits(boxes[..n], b);
    }
  }

  // ------------------------------------------------------------------ the movie

  /** The boxes of a track that come before the nested one at each level: tkhd and edts, mdhd
      and hdlr, the media header and dinf, the sample description, and the sync sample table
      of a video track. */
  datatype TrackHeads = TrackHeads(
    trak: seq<Bytes>, mdia: seq<Bytes>, minf: seq<Bytes>, stsd: seq<Bytes>, stss: seq<Bytes>)

  /** A box of a kind that a player does not descend into for the tables. */
  predicate IsPlain(b: Bytes) {
    IsBox(b) && Kind(b) !in [TRAK, MDIA, MINF, STBL, STTS, STSC, STSZ, CO64]
  }

  predicate AllPlain(boxes: seq<Bytes>) {
    forall b <- boxes :: IsPlain(b)
  }

  predicate HeadsPlain(h: TrackHeads) {
    AllPlain(h.trak) && AllPlain(h.mdia) && AllPlain(h.minf) && AllPlain(h.stsd) && AllPlain(h.stss)
  }

  function TableBoxes(h: TrackHeads, infos: seq<SampleInfo>): seq<Bytes> {
    h.stsd + [SttsOf(infos)] + h.stss + [StscBox(), StszOf(infos), Co64Of(infos)]
  }

  function StblOf(h: TrackHeads, infos: seq<SampleInfo>): Bytes {
    BoxOf(STBL, Concat(TableBoxes(h, infos)))
  }

  function MinfOf(h: TrackHeads, infos: seq<SampleInfo>): Bytes {
    BoxOf(MINF, Concat(h.minf + [StblOf(h, infos)]))
  }

  function MdiaOf(h: TrackHeads, infos: seq<SampleInfo>): Bytes {
    BoxOf(MDIA, Concat(h.mdia + [MinfOf(h, infos)]))
  }

  function TrakOf(h: TrackHeads, infos: seq<SampleInfo>): Bytes {
    BoxOf(TRAK, Concat(h.trak + [MdiaOf(h, infos)]))
  }

  function Traks(heads: seq<TrackHeads>, tracks: seq<seq<SampleInfo>>): seq<Bytes>
    requires |heads| == |tracks|
  {
    seq(|tracks|, k requires 0 <= k < |tracks| => TrakOf(heads[k], tracks[k]))
  }

  function MoovOf(mvhd: Bytes, heads: seq<TrackHeads>, tracks: seq<seq<SampleInfo>>): Bytes
    requires |heads| == |tracks|
  {
    BoxOf(MOOV, Concat([mvhd] + Traks(heads, tracks)))
  }

  method MakeTrak(h: TrackHeads, infos: seq<SampleInfo>) returns (b: Bytes)
    ensures b == TrakOf(h, infos)
  {
    var stts := MakeStts(infos);
    var stsz := MakeStsz(infos);
    var co64 := MakeCo64(infos);
    var stbl := Concat(h.stsd) + stts + Concat(h.stss) + StscBox() + stsz + co64;
    TableBytes(h, infos);
    var minf := Concat(h.minf) + BoxOf(STBL, stbl);
    ConcatLast(h.minf, BoxOf(STBL, stbl));
    var mdia := Concat(h.mdia) + BoxOf(MINF, minf);
    ConcatLast(h.mdia, BoxOf(MINF, minf));
    b := BoxOf(TRAK, Concat(h.trak) + BoxOf(MDIA, mdia));
    ConcatLast(h.trak, BoxOf(MDIA, mdia));
  }

  lemma ConcatLast(boxes: seq<Bytes>, b: Bytes)
    ensures Concat(boxes + [b]) == Concat(boxes) + b
  {
    assert (boxes + [b])[..|boxes|] == boxes;
  }

  lemma TableBytes(h: TrackHeads, infos: seq<SampleInfo>)
    ensures Concat(TableBoxes(h, infos))
         == Concat(h.stsd) + SttsOf(infos) + Concat(h.stss) + StscBox() + StszOf(infos) + Co64Of(infos)
  {
    var a := h.stsd + [SttsOf(infos)];
    var b := a + h.stss;
    ConcatLast(h.stsd, SttsOf(infos));
    ConcatSplits(a, h.stss);
    ConcatLast(b, StscBox());
    ConcatLast(b + [StscBox()], StszOf(infos));
    ConcatLast(b + [StscBox()] + [StszOf(infos)], Co64Of(infos));
    assert TableBoxes(h, infos) == b + [StscBox()] + [StszOf(infos)] + [Co64Of(infos)];
  }

  lemma TraksGrow(mvhd: Bytes, traks: seq<Bytes>, k: nat)
    requires k < |traks|
    ensures Concat([mvhd] + traks[..k + 1]) == Concat([mvhd] + traks[..k]) + traks[k]
  {
    ConcatLast([mvhd] + traks[..k], traks[k]);
    assert [mvhd] + traks[..k + 1] == [mvhd] + traks[..k] + [traks[k]];
  }

  method MakeMoov(mvhd: Bytes, heads: seq<TrackHeads>, tracks: seq<seq<SampleInfo>>) returns (b: Bytes)
    requires |heads| == |tracks|
    ensures b == MoovOf(mvhd, heads, tracks)
  {
    var payload := mvhd;
    ghost var traks := Traks(heads, tracks);
    ConcatOne(mvhd);
    assert [mvhd] + traks[..0] == [mvhd];
    for k := 0 to |tracks|
      invariant payload == Concat([mvhd] + traks[..k])
    {
      var trak := MakeTrak(heads[k], tracks[k]);
      TraksGrow(mvhd, traks, k);
      payload := payload + trak;
    }
    assert traks[..|tracks|] == traks;
    b := BoxOf(MOOV, payload);
  }

  // -------------------------------------------------------- the tables are found

  lemma PlainIsNone(boxes: seq<Bytes>, kind: Bytes)
    requires AllPlain(boxes) && kind in [TRAK, MDIA, MINF, STBL, STTS, STSC, STSZ, CO64]
    ensures forall b <- boxes :: IsBox(b) && Kind(b) != kind
  {
    assert forall b <- boxes :: IsPlain(b);
  }

  /** The nested box comes after the plain ones and is found in its container. */
  lemma FindLast(kind: Bytes, front: seq<Bytes>, nested: Bytes, wanted: Bytes)
    requires |kind| == 4 && AllPlain(front) && IsBox(nested) && Kind(nested) == wanted
    requires wanted in [TRAK, MDIA, MINF, STBL, STTS, STSC, STSZ, CO64]
    requires |Concat(front + [nested])| + 8 < U32
    ensures FindIn(Inside(Some(BoxOf(kind, Concat(front + [nested])))), wanted, 0) == Some(nested)
    ensures IsBox(BoxOf(kind, Concat(front + [nested]))) && Kind(BoxOf(kind, Concat(front + [nested]))) == kind
  {
    PlainIsNone(front, wanted);
    FindPast(front, [nested], wanted, 0);
    FindInContainer(kind, front + [nested], wanted, 0);
  }

  lemma TablesAreBoxes(infos: seq<SampleInfo>)
    requires |SttsOf(infos)| < U32 && |StszOf(infos)| < U32 && |Co64Of(infos)| < U32
    ensures IsBox(SttsOf(infos)) && Kind(SttsOf(infos)) == STTS
    ensures IsBox(StszOf(infos)) && Kind(StszOf(infos)) == STSZ
    ensures IsBox(Co64Of(infos)) && Kind(Co64Of(infos)) == CO64
    ensures IsBox(StscBox()) && Kind(StscBox()) == STSC
  {
    FullIsBox(STTS, U32Bytes(|Runs(infos)| % U32) + Column(Flat(Runs(infos)), false));
    FullIsBox(STSZ, U32Bytes(0) + U32Bytes(|infos| % U32) + Column(Sizes(infos), false));
    FullIsBox(CO64, U32Bytes(|infos| % U32) + Column(Offsets(infos), true));
    FullIsBox(STSC, U32Bytes(1) + U32Bytes(1) + U32Bytes(1) + U32Bytes(1));
  }

  lemma TablesFit(h: TrackHeads, infos: seq<SampleInfo>)
    ensures var size := |Concat(TableBoxes(h, infos))|;
            |SttsOf(infos)| <= size && |StszOf(infos)| <= size && |Co64Of(infos)| <= size
  {
    TableBytes(h, infos);
  }

  lemma FindFourth(stsd: seq<Bytes>, stts: Bytes, stss: seq<Bytes>, stsc: Bytes, stsz: Bytes, co64: Bytes)
    requires AllPlain(stsd) && AllPlain(stss)
    requires IsBox(stts) && Kind(stts) == STTS && IsBox(stsc) && Kind(stsc) == STSC
    requires IsBox(stsz) && Kind(stsz) == STSZ && IsBox(co64) && Kind(co64) == CO64
    ensures var boxes := stsd + [stts] + stss + [stsc, stsz, co64];
            && (forall b <- boxes :: IsBox(b))
            && Find(boxes, STTS, 0) == Some(stts) && Find(boxes, STSC, 0) == Some(stsc)
            && Find(boxes, STSZ, 0) == Some(stsz) && Find(boxes, CO64, 0) == Some(co64)
  {
    var tail, rest := [stsc, stsz, co64], [stts] + stss + [stsc, stsz, co64];
    var boxes, front := stsd + [stts] + stss + tail, stsd + [stts] + stss;
    assert boxes == stsd + rest && boxes == front + tail;
    PlainIsNone(stsd, STTS);
    FindPast(stsd, rest, STTS, 0);
    PlainIsNone(stsd, STSC);
    PlainIsNone(stss, STSC);
    FindPast(front, tail, STSC, 0);
    PlainIsNone(stsd, STSZ);
    PlainIsNone(stss, STSZ);
    FindPast(front, tail, STSZ, 0);
    PlainIsNone(stsd, CO64);
    PlainIsNone(stss, CO64);
    FindPast(front, tail, CO64, 0);
    assert tail[1..] == [stsz, co64] && tail[1..][1..] == [co64];
    assert Find([co64], CO64, 0) == Some(co64);
  }

  /** The three tables among the boxes of an stbl. */
  lemma FindTables(h: TrackHeads, infos: seq<SampleInfo>)
    requires HeadsPlain(h) && |Concat(TableBoxes(h, infos))| < U32
    ensures var boxes := TableBoxes(h, infos);
            && (forall b <- boxes :: IsBox(b))
            && Find(boxes, STTS, 0) == Some(SttsOf(infos))
            && Find(boxes, STSC, 0) == Some(StscBox())
            && Find(boxes, STSZ, 0) == Some(StszOf(infos))
            && Find(boxes, CO64, 0) == Some(Co64Of(infos))
  {
    TablesFit(h, infos);
    TablesAreBoxes(infos);
    FindFourth(h.stsd, SttsOf(infos), h.stss, StscBox(), StszOf(infos), Co64Of(infos));
  }

  /** Each table of a track that fits its box is found in it. */
  lemma FindInTrak(h: TrackHeads, infos: seq<SampleInfo>, kind: Bytes)
    requires HeadsPlain(h) && |TrakOf(h, infos)| < U32 && kind in [STTS, STSC, STSZ, CO64]
    ensures IsBox(TrakOf(h, infos)) && Kind(TrakOf(h, infos)) == TRAK
    ensures TableIn(Some(TrakOf(h, infos)), kind) == Find(TableBoxes(h, infos), kind, 0)
  {
    var tables, stbl := TableBoxes(h, infos), StblOf(h, infos);
    var minf, mdia := MinfOf(h, infos), MdiaOf(h, infos);
    BoxHolds(TRAK, h.trak, mdia);
    BoxHolds(MDIA, h.mdia, minf);
    BoxHolds(MINF, h.minf, stbl);
    FindTables(h, infos);
    FindInContainer(STBL, tables, kind, 0);
    FindLast(MINF, h.minf, stbl, STBL);
    FindLast(MDIA, h.mdia, minf, MINF);
    FindLast(TRAK, h.trak, mdia, MDIA);
  }

  /** A box is longer than what it holds. */
  lemma BoxHolds(kind: Bytes, front: seq<Bytes>, nested: Bytes)
    requires |kind| == 4
    ensures |BoxOf(kind, Concat(front + [nested]))| == |Concat(front + [nested])| + 8
    ensures |nested| <= |Concat(front + [nested])|
  {
    ConcatLast(front, nested);
  }

  function ByteOf(c: char): Byte {
    c as int % 256
  }

  function Ascii(text: string): Bytes {
    seq(|text|, i requires 0 <= i < |text| => ByteOf(text[i]))
  }

  function FtypBox(): Bytes {
    BoxOf(FTYP, Ascii("isom") + U32Bytes(0x200) + Ascii("isom") + Ascii("iso2") + Ascii("avc1") + Ascii("mp41")
                + Ascii("qt  "))
  }

  lemma MediaIsBox(media: Bytes)
    requires |media| + 16 < U64
    ensures IsBox(MdatHeader(|media|) + media) && Kind(MdatHeader(|media|) + media) == MDAT
  {
    MdatCoversMedia(|media|);
    DeclaredByFront(MdatHeader(|media|), media);
    assert MdatHeader(|media|)[4..8] == MDAT;
    assert (MdatHeader(|media|) + media)[4..8] == MdatHeader(|media|)[4..8];
  }

  /** The file is three boxes, and its movie is found. */
  lemma MovieIsFound(media: Bytes, moov: Bytes)
    requires |media| + 16 < U64 && IsBox(moov) && Kind(moov) == MOOV
    ensures FindIn(Some(FtypBox() + MdatHeader(|media|) + media + moov), MOOV, 0) == Some(moov)
  {
    var mdat := MdatHeader(|media|) + media;
    var boxes := [FtypBox(), mdat, moov];
    MediaIsBox(media);
    var brand := FtypBox()[8..];
    assert FtypBox() == BoxOf(FTYP, brand);
    WrittenIsBox(FTYP, brand);
    ThreeBoxes(FtypBox(), mdat, moov);
    BoxesComeBack(boxes);
    Regroup(FtypBox(), MdatHeader(|media|), media);
    FindPast([FtypBox(), mdat], [moov], MOOV, 0);
    assert boxes == [FtypBox(), mdat] + [moov];
  }

  lemma ThreeBoxes(a: Bytes, b: Bytes, c: Bytes)
    ensures Concat([a, b, c]) == a + b + c
  {
    ConcatOne(a);
    ConcatLast([a], b);
    ConcatLast([a] + [b], c);
    assert [a] + [b] + [c] == [a, b, c];
  }

  lemma MovieHolds(mvhd: Bytes, traks: seq<Bytes>, k: nat)
    requires k < |traks|
    ensures |traks[k]| <= |Concat([mvhd] + traks)|
  {
    assert ([mvhd] + traks)[k + 1] == traks[k];
    MemberFits([mvhd] + traks, traks[k]);
  }

  lemma FindTrak(mvhd: Bytes, traks: seq<Bytes>, k: nat)
    requires IsPlain(mvhd) && k < |traks| && forall b <- traks :: IsBox(b) && Kind(b) == TRAK
    requires |Concat([mvhd] + traks)| + 8 < U32
    ensures var moov := BoxOf(MOOV, Concat([mvhd] + traks));
            IsBox(moov) && Kind(moov) == MOOV && FindIn(Inside(Some(moov)), TRAK, k) == Some(traks[k])
  {
    FindInContainer(MOOV, [mvhd] + traks, TRAK, k);
    FindPast([mvhd], traks, TRAK, k);
    FindAmongSame(traks, TRAK, k);
  }

  lemma TrakIsFound(mvhd: Bytes, heads: seq<TrackHeads>, tracks: seq<seq<SampleInfo>>, k: nat)
    requires |heads| == |tracks| && k < |tracks| && IsPlain(mvhd) && forall h <- heads :: HeadsPlain(h)
    requires |MoovOf(mvhd, heads, tracks)| < U32
    ensures IsBox(MoovOf(mvhd, heads, tracks)) && Kind(MoovOf(mvhd, heads, tracks)) == MOOV
    ensures FindIn(Inside(Some(MoovOf(mvhd, heads, tracks))), TRAK, k) == Some(TrakOf(heads[k], tracks[k]))
    ensures |TrakOf(heads[k], tracks[k])| < U32
  {
    var traks := Traks(heads, tracks);
    BoxSize(MOOV, Concat([mvhd] + traks));
    forall j | 0 <= j < |traks|
      ensures IsBox(traks[j]) && Kind(traks[j]) == TRAK && |traks[j]| < U32
    {
      assert heads[j] in heads;
      MovieHolds(mvhd, traks, j);
      FindInTrak(heads[j], tracks[j], STTS);
    }
    FindTrak(mvhd, traks, k);
  }

  lemma BoxSize(kind: Bytes, payload: Bytes)
    requires |kind| == 4
    ensures |BoxOf(kind, payload)| == |payload| + 8
  {
  }

  /** A movie that fits the fields of its boxes: moov is declared in 32 bits, mdat in 64. */
  ghost predicate MovieFits(mvhd: Bytes, heads: seq<TrackHeads>, tracks: seq<seq<SampleInfo>>, media: Bytes) {
    && |heads| == |tracks| && |MoovOf(mvhd, heads, tracks)| < U32 && |media| + 16 < U64
    && IsPlain(mvhd) && forall h <- heads :: HeadsPlain(h)
  }

  /** From the file's bytes alone a player reaches each track's own tables. */
  lemma TablesAreFound(
    mvhd: Bytes, heads: seq<TrackHeads>, tracks: seq<seq<SampleInfo>>, payloads: seq<Bytes>, k: nat)
    requires MovieFits(mvhd, heads, tracks, Concat(payloads)) && k < |tracks|
    ensures var file := File(FtypBox(), payloads, MoovOf(mvhd, heads, tracks));
            && TrackTable(file, k, STTS) == Some(SttsOf(tracks[k]))
            && TrackTable(file, k, STSC) == Some(StscBox())
            && TrackTable(file, k, STSZ) == Some(StszOf(tracks[k]))
            && TrackTable(file, k, CO64) == Some(Co64Of(tracks[k]))
  {
    TrakIsFound(mvhd, heads, tracks, k);
    MovieIsFound(Concat(payloads), MoovOf(mvhd, heads, tracks));
    assert heads[k] in heads;
    var h, infos := heads[k], tracks[k];
    FindInTrak(h, infos, STTS);
    FindInTrak(h, infos, STSC);
    FindInTrak(h, infos, STSZ);
    FindInTrak(h, infos, CO64);
    TablesInTrak(h, infos);
    FindTables(h, infos);
  }

  lemma TablesInTrak(h: TrackHeads, infos: seq<SampleInfo>)
    ensures |Concat(TableBoxes(h, infos))| <= |TrakOf(h, infos)|
  {
    BoxHolds(TRAK, h.trak, MdiaOf(h, infos));
    BoxHolds(MDIA, h.mdia, MinfOf(h, infos));
    BoxHolds(MINF, h.minf, StblOf(h, infos));
  }

  /** Box kinds are their four characters. */
  lemma KindsAreNames()
    ensures FTYP == Ascii("ftyp") && MDAT == Ascii("mdat") && MOOV == Ascii("moov") && TRAK == Ascii("trak")
    ensures MDIA == Ascii("mdia") && MINF == Ascii("minf") && STBL == Ascii("stbl")
    ensures STTS == Ascii("stts") && STSC == Ascii("stsc") && STSZ == Ascii("stsz") && CO64 == Ascii("co64")
  {
  }
}
