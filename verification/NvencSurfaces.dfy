/** The encoder's input surfaces: one cached texture per output slot and a canonical image
    shared by them. A cached identity, not the pixels, decides whether a copy is skipped. */
module NvencSurfaces {
  import opened Basics

  /** What a texture holds: unspecified pixels, or the pixels of one image. */
  datatype Content = Unspecified | Image(image: int)

  datatype Texture = Texture(id: nat, width: int, height: int, nv12: bool, content: Content)

  /** A captured frame; `image` is what its texture shows, `native` says that the texture is
      already BGRA at the output size. */
  datatype Source = Source(
    pts: int, epoch: nat, sequence: nat, width: int, height: int, native: bool, image: Content)

  /** A slot's input texture, the processor view and scaler generation it was made for, and
      the identity of the frame it was last given. */
  datatype Surface = Surface(texture: Option<Texture>, view: bool, generation: nat, epoch: nat, sequence: nat)

  const NO_SURFACE := Surface(None, false, 0, 0, 0)

  datatype OutputSlot = OutputSlot(
    inFlight: bool, mapped: Option<nat>, frame: Option<Source>, lastReserved: int, buffer: bool, surface: Surface)

  datatype InputPath = NoPath | VideoProcessor | BgraCopyFallback | CachedSurface

  /** What surfaces are held against: the pixels of each numbered frame, and the size of the
      session's encodes. */
  datatype Reference = Reference(image: (nat, nat) -> Content, width: int, height: int)

  predicate Numbered(frame: Source, reference: Reference) {
    frame.sequence != 0 ==> frame.image == reference.image(frame.epoch, frame.sequence)
  }

  /** A texture cached under a numbered identity holds that frame's pixels. */
  predicate Holds(texture: Option<Texture>, epoch: nat, sequence: nat, reference: Reference) {
    texture.Some? && sequence != 0 ==> texture.value.content == reference.image(epoch, sequence)
  }

  predicate OfSize(texture: Option<Texture>, reference: Reference) {
    texture.Some? ==> texture.value.width == reference.width && texture.value.height == reference.height
  }

  predicate SurfaceCoherent(surface: Surface, reference: Reference) {
    Holds(surface.texture, surface.epoch, surface.sequence, reference) && OfSize(surface.texture, reference)
  }

  predicate Identifies(surface: Surface, frame: Source) {
    surface.epoch == frame.epoch && surface.sequence == frame.sequence
  }

  predicate Shows(texture: Option<Texture>, frame: Source) {
    texture.Some? && texture.value.content == frame.image
  }

  /** The surface keeps its texture or gets one created in between. */
  predicate Updates(a: Surface, b: Surface, first: nat, next: nat) {
    && first <= next
    && (b.texture.Some? ==>
          || first <= b.texture.value.id < next
          || (a.texture.Some? && b.texture.value.id == a.texture.value.id))
  }

  /** An `ensure` step: the surface as it was, or a new one with no identity. */
  predicate KeptOrBlank(a: Surface, b: Surface) {
    b == a || (b.epoch == 0 && b.sequence == 0)
  }

  class SurfaceCache {
    const width: int
    const height: int
    const separate: bool
    const skipCanonicalCopy: bool
    const directFresh: bool
    const earlyRetire: bool
    var preferNv12: bool
    var supportsNv12: bool
    var supportsArgb: bool
    var scaler: Option<(int, int)>
    var scalerGeneration: nat
    var canonical: Option<Texture>
    var canonicalView: bool
    var canonicalGeneration: nat
    var canonicalEpoch: nat
    var canonicalSequence: nat
    var freshEpoch: nat
    var freshSequence: nat
    var nextTexture: nat

    /** The cached canonical image is the frame it is cached for, in the session's size. */
    ghost predicate Coherent(reference: Reference)
      reads this
    {
      && Holds(canonical, canonicalEpoch, canonicalSequence, reference) && OfSize(canonical, reference)
      && reference.width == Max(1, width) && reference.height == Max(1, height)
      && (canonical.Some? ==> separate)
      && (preferNv12 || (canonical.Some? && canonical.value.nv12) ==> supportsNv12)
    }

    predicate HasSize(texture: Option<Texture>) {
      texture.Some? && texture.value.width == Max(1, width) && texture.value.height == Max(1, height)
    }

    /** The processor is set up for input of this size, if a conversion to the format needs it. */
    predicate ScalesFor(w: int, h: int, nv12: bool)
      reads this
    {
      nv12 || w != width || h != height ==> scaler == Some((w, h))
    }

    /** A surface the encoder can take: of the session's size, NV12 only where supported. */
    predicate Encodable(texture: Option<Texture>)
      reads this
    {
      && texture.Some? && texture.value.width == width && texture.value.height == height
      && (texture.value.nv12 ==> supportsNv12)
    }

    /** The canonical image answers for this frame without a new conversion. */
    predicate CanonicalHit(frame: Source)
      reads this
    {
      canonical.Some? && canonicalEpoch == frame.epoch && canonicalSequence == frame.sequence
    }

    /** The canonical texture and its identity as they were, or no identity. */
    predicate CanonicalKept(texture: Option<Texture>, epoch: nat, sequence: nat)
      reads this
    {
      || (canonical == texture && canonicalEpoch == epoch && canonicalSequence == sequence)
      || (canonicalEpoch == 0 && canonicalSequence == 0)
    }

    predicate SkipsCanonical(frame: Source)
      reads this
    {
      skipCanonicalCopy && !preferNv12 && supportsArgb && frame.width == width && frame.height == height
    }

    constructor (width: int, height: int, separate: bool, skipCanonicalCopy: bool, directFresh: bool,
                 earlyRetire: bool, wantsNv12: bool, supportsNv12: bool, supportsArgb: bool)
      ensures canonical == None && nextTexture == 0 && this.width == width && this.height == height
      ensures forall image :: Coherent(Reference(image, Max(1, width), Max(1, height)))
    {
      this.width, this.height, this.separate := width, height, separate;
      this.skipCanonicalCopy, this.directFresh, this.earlyRetire := skipCanonicalCopy, directFresh, earlyRetire;
      this.preferNv12, this.supportsNv12, this.supportsArgb := supportsNv12 && wantsNv12, supportsNv12, supportsArgb;
      scaler, scalerGeneration, canonical, canonicalView := None, 0, None, false;
      canonicalGeneration, canonicalEpoch, canonicalSequence := 0, 0, 0;
      freshEpoch, freshSequence, nextTexture := 0, 0, 0;
    }

    // A driver call: it may succeed or fail.
    method DriverCall() returns (ok: bool)
    {
      ok := *;
    }

    method CreateTexture(w: int, h: int, nv12: bool) returns (texture: Option<Texture>)
      modifies this`nextTexture
      ensures nextTexture >= old(nextTexture)
      ensures texture.Some? ==>
                && texture.value == Texture(old(nextTexture), w, h, nv12, Unspecified)
                && nextTexture == old(nextTexture) + 1
    {
      var ok := DriverCall();
      if !ok { return None; }
      texture := Some(Texture(nextTexture, w, h, nv12, Unspecified));
      nextTexture := nextTexture + 1;
    }

    method ResetPreparedFrameBridge()
      modifies this`canonical, this`canonicalView, this`canonicalEpoch, this`canonicalSequence,
               this`canonicalGeneration, this`freshEpoch, this`freshSequence
      ensures canonical == None
    {
      canonical, canonicalView, canonicalEpoch, canonicalSequence := None, false, 0, 0;
      canonicalGeneration, freshEpoch, freshSequence := 0, 0, 0;
    }

    method EnsureVideoScaler(w: int, h: int) returns (ok: bool)
      modifies this`scaler, this`scalerGeneration
      ensures ok ==> scaler == Some((w, h))
      // Another input size is another generation, which retires the surfaces made for the last.
      ensures !ok ==> scaler == old(scaler)
      ensures scalerGeneration == old(scalerGeneration) + if scaler == old(scaler) then 0 else 1
    {
      if scaler == Some((w, h)) { return true; }
      ok := DriverCall();
      if ok {
        scaler, scalerGeneration := Some((w, h)), scalerGeneration + 1;
      }
    }

    method EnsureCanonicalSurface(w: int, h: int, ghost reference: Reference) returns (ok: bool)
      requires Coherent(reference) && separate
      modifies this`scaler, this`scalerGeneration, this`nextTexture, this`canonical, this`canonicalView,
               this`canonicalGeneration, this`canonicalEpoch, this`canonicalSequence
      ensures Coherent(reference) && nextTexture >= old(nextTexture)
      ensures ok ==> canonical.Some?
      ensures ok ==> canonical.value.nv12 == (supportsNv12 && (preferNv12 || !supportsArgb))
      ensures ok ==> ScalesFor(w, h, canonical.value.nv12)
      ensures ok && (canonical.value.nv12 || w != width || h != height) ==> canonicalGeneration == scalerGeneration
      ensures canonical == None || CanonicalKept(old(canonical), old(canonicalEpoch), old(canonicalSequence))
    {
      var nv12 := supportsNv12 && (preferNv12 || !supportsArgb);
      var processing := nv12 || w != width || h != height;
      if processing {
        var scaled := EnsureVideoScaler(w, h);
        if !scaled { return false; }
      }
      if canonical.Some? {
        var existing := canonical.value;
        if && existing.width == width && existing.height == height && existing.nv12 == nv12
           && (!processing || canonicalGeneration == scalerGeneration) {
          return true;
        }
        canonicalView, canonical := false, None;
      }
      var created := CreateTexture(Max(1, width), Max(1, height), nv12);
      if created.None? { return false; }
      if processing {
        var viewed := DriverCall();
        if !viewed { return false; }
        canonicalView := true;
      }
      canonical, canonicalGeneration, canonicalEpoch, canonicalSequence := created, scalerGeneration, 0, 0;
      ok := true;
    }

    method EnsureEncoderInputSurface(surface: Surface) returns (ok: bool, after: Surface)
      modifies this`nextTexture
      ensures Updates(surface, after, old(nextTexture), nextTexture)
      ensures ok ==> canonical.Some? && after.texture.Some? && KeptOrBlank(surface, after)
      ensures ok ==>
                && after.texture.value.nv12 == canonical.value.nv12
                && after.texture.value.width == canonical.value.width
                && after.texture.value.height == canonical.value.height
    {
      after := surface;
      if canonical.None? { return false, after; }
      if surface.texture.Some? {
        var existing := surface.texture.value;
        if && existing.width == canonical.value.width && existing.height == canonical.value.height
           && existing.nv12 == canonical.value.nv12 && surface.generation == canonicalGeneration {
          return true, after;
        }
        after := after.(view := false, texture := None, epoch := 0, sequence := 0);
      }
      var created := CreateTexture(canonical.value.width, canonical.value.height, canonical.value.nv12);
      if created.None? { return false, after; }
      after := after.(texture := created, generation := canonicalGeneration, epoch := 0, sequence := 0);
      ok := true;
    }

    method EnsureBgraCopyOutput(surface: Surface) returns (ok: bool, after: Surface)
      requires surface.texture.Some? ==> HasSize(surface.texture)
      modifies this`nextTexture
      ensures Updates(surface, after, old(nextTexture), nextTexture)
      ensures ok ==> after.texture.Some? && !after.texture.value.nv12 && KeptOrBlank(surface, after)
      ensures ok ==> HasSize(after.texture)
    {
      after := surface;
      if surface.texture.Some? {
        var existing := surface.texture.value;
        if existing.width == width && existing.height == height && !existing.nv12 {
          return true, after;
        }
        after := after.(view := false, texture := None, generation := 0, epoch := 0, sequence := 0);
      }
      var created := CreateTexture(Max(1, width), Max(1, height), false);
      if created.None? { return false, after; }
      after := after.(texture := created, generation := 0, epoch := 0, sequence := 0);
      ok := true;
    }

    // Creates the slot's output texture and its processor view, or neither.
    method CreateScaledOutput(surface: Surface, nv12: bool) returns (ok: bool, after: Surface)
      requires surface.texture == None
      modifies this`nextTexture
      ensures Updates(surface, after, old(nextTexture), nextTexture)
      ensures ok ==> after.texture.Some? && after.texture.value.nv12 == nv12 && after.epoch == 0 && after.sequence == 0
      ensures ok ==> HasSize(after.texture)
      ensures !ok ==> after.texture == None
    {
      after := surface;
      var created := CreateTexture(Max(1, width), Max(1, height), nv12);
      if created.None? { return false, after; }
      var viewed := DriverCall();
      if !viewed { return false, after.(view := false); }
      after := after.(texture := created, view := true, generation := scalerGeneration, epoch := 0, sequence := 0);
      ok := true;
    }

    method EnsureScaledOutput(surface: Surface) returns (ok: bool, after: Surface)
      requires surface.texture.Some? ==> HasSize(surface.texture)
      modifies this`nextTexture, this`preferNv12
      ensures Updates(surface, after, old(nextTexture), nextTexture)
      ensures ok ==> after.texture.Some? && KeptOrBlank(surface, after)
      ensures ok ==> after.texture.value.nv12 == preferNv12
      ensures ok ==> HasSize(after.texture)
      ensures preferNv12 ==> old(preferNv12)
    {
      after := surface;
      if surface.texture.Some? {
        var existing := surface.texture.value;
        if && existing.width == width && existing.height == height && existing.nv12 == preferNv12
           && surface.generation == scalerGeneration {
          return true, after;
        }
        after := after.(view := false, texture := None, generation := 0, epoch := 0, sequence := 0);
      }
      ok, after := CreateScaledOutput(after, preferNv12);
      if !ok && preferNv12 {
        preferNv12 := false;
        ok, after := CreateScaledOutput(after, false);
      }
      if !ok {
        after := after.(view := false, texture := None, generation := 0);
      }
    }

    // The canonical texture, in BGRA if NV12 cannot be had.
    method EnsureCanonicalOrBgra(w: int, h: int, ghost reference: Reference) returns (ok: bool)
      requires Coherent(reference) && separate
      modifies this`scaler, this`scalerGeneration, this`nextTexture, this`canonical, this`canonicalView,
               this`canonicalGeneration, this`canonicalEpoch, this`canonicalSequence, this`preferNv12
      ensures nextTexture >= old(nextTexture) && Coherent(reference)
      ensures ok ==> canonical.Some? && ScalesFor(w, h, canonical.value.nv12)
      ensures ok ==> CanonicalKept(old(canonical), old(canonicalEpoch), old(canonicalSequence))
    {
      ok := EnsureCanonicalSurface(w, h, reference);
      if !ok {
        if !preferNv12 || !supportsArgb { return; }
        preferNv12, canonicalView, canonical := false, false, None;
        ok := EnsureCanonicalSurface(w, h, reference);
      }
    }

    // Draws the frame into the slot's surface or the canonical texture, and names it there.
    method Draw(frame: Source, surface: Surface, onSlot: bool, ghost reference: Reference)
      returns (ok: bool, after: Surface)
      requires Coherent(reference) && SurfaceCoherent(surface, reference) && Numbered(frame, reference)
      requires canonical.Some? && (onSlot ==> surface.texture.Some?)
      modifies this`canonical, this`canonicalEpoch, this`canonicalSequence, this`freshEpoch, this`freshSequence
      ensures ok ==> Coherent(reference) && SurfaceCoherent(after, reference)
      ensures canonical.Some? && canonical.value.nv12 == old(canonical.value.nv12)
      ensures surface.texture.Some? ==> after.texture.Some? && after.texture.value.nv12 == surface.texture.value.nv12
      ensures Updates(surface, after, nextTexture, nextTexture)
      ensures ok && onSlot ==>
                && Identifies(after, frame) && Shows(after.texture, frame)
                && canonical == old(canonical) && canonicalEpoch == old(canonicalEpoch)
                && canonicalSequence == old(canonicalSequence)
      ensures ok && !onSlot ==> CanonicalHit(frame) && Shows(canonical, frame)
      ensures !onSlot ==> after == surface
    {
      after := surface;
      // The source is armed, read and released here; what each read sees is the handoff's
      // and the direct reader's own concern.
      var begun := DriverCall();
      if !begun { return false, after; }
      var prepared := true;
      if canonicalView {
        prepared := DriverCall();
      }
      var content := if prepared then frame.image else Unspecified;
      if onSlot {
        after := after.(texture := Some(after.texture.value.(content := content)));
      } else {
        canonical := Some(canonical.value.(content := content));
      }
      var released := DriverCall();
      if !released || !prepared { return false, after; }
      if onSlot {
        after := after.(epoch := frame.epoch, sequence := frame.sequence);
        freshEpoch, freshSequence := frame.epoch, frame.sequence;
      } else {
        canonicalEpoch, canonicalSequence := frame.epoch, frame.sequence;
      }
      ok := true;
    }

    /** Converts or copies the captured image into the canonical texture or, when `direct` is
        allowed and possible, straight into the slot's surface. */
    method PrepareCanonicalFrame(frame: Source, surface: Surface, directOutput: bool, ghost reference: Reference)
      returns (ok: bool, after: Surface)
      requires separate && Coherent(reference) && SurfaceCoherent(surface, reference) && Numbered(frame, reference)
      modifies this
      ensures Updates(surface, after, old(nextTexture), nextTexture)
      ensures ok ==> Coherent(reference) && SurfaceCoherent(after, reference) && supportsNv12 == old(supportsNv12)
      ensures ok ==> canonical.Some? && ScalesFor(frame.width, frame.height, canonical.value.nv12)
      ensures ok ==>
                || (&& directOutput && Identifies(after, frame) && Shows(after.texture, frame)
                    && after.texture.value.nv12 == canonical.value.nv12
                    && CanonicalKept(old(canonical), old(canonicalEpoch), old(canonicalSequence)))
                || (after == surface && CanonicalHit(frame) && Shows(canonical, frame))
    {
      after := surface;
      var direct := DriverCall();
      if !direct {
        var bridged := DriverCall();
        if !bridged { return false, after; }
      }
      ok := EnsureCanonicalOrBgra(frame.width, frame.height, reference);
      if !ok { return; }
      var onSlot := directOutput && direct && canonicalView && canonical.value.nv12;
      if onSlot {
        ok, after := EnsureEncoderInputSurface(after);
        if !ok { return; }
        var viewed := DriverCall();
        if !viewed { return false, after; }
      }
      ok, after := Draw(frame, after, onSlot, reference);
    }

    // A GPU copy: the destination's pixels become the source's.
    method CopyInto(surface: Surface, content: Content) returns (after: Surface)
      requires surface.texture.Some?
      ensures after == surface.(texture := Some(surface.texture.value.(content := content)))
    {
      after := surface.(texture := Some(surface.texture.value.(content := content)));
    }

    /** What the canonical texture answers for a frame, if it is cached under the frame's
        identity. For an unnumbered frame that can be another frame's image. */
    function Cached(frame: Source): Content
      reads this
    {
      if separate && CanonicalHit(frame) then canonical.value.content else frame.image
    }

    /** The pixels a prepared surface shows. */
    function Served(frame: Source): Content
      reads this
    {
      if SkipsCanonical(frame) then frame.image else Cached(frame)
    }

    /** Every numbered frame is shown as itself, and cached under its identity. */
    ghost predicate Prepared(frame: Source, after: Surface, served: Content) {
      && after.texture.Some? && Identifies(after, frame)
      && after.texture.value.content == served
      && (frame.sequence != 0 ==> served == frame.image)
    }

    // Copies the frame itself into the slot's BGRA surface, unless it is there already.
    method PrepareBgraCopy(frame: Source, surface: Surface, ghost reference: Reference)
      returns (path: InputPath, after: Surface)
      requires Coherent(reference) && SurfaceCoherent(surface, reference) && Numbered(frame, reference)
      modifies this`nextTexture
      ensures Updates(surface, after, old(nextTexture), nextTexture)
      ensures path != NoPath ==> SurfaceCoherent(after, reference) && Prepared(frame, after, frame.image)
      ensures path != NoPath ==> !after.texture.value.nv12
      ensures path == CachedSurface ==> after == surface
    {
      var ok: bool;
      ok, after := EnsureBgraCopyOutput(surface);
      if !ok { return NoPath, after; }
      if frame.sequence != 0 && Identifies(after, frame) { return CachedSurface, after; }
      var copied := DriverCall();
      if !copied { return NoPath, after; }
      after := CopyInto(after, frame.image);
      after := after.(epoch := frame.epoch, sequence := frame.sequence);
      path := BgraCopyFallback;
    }

    // Copies the frame into the slot's surface by way of the canonical texture, made first
    // unless it holds the frame already.
    method PrepareFromCanonical(frame: Source, surface: Surface, ghost reference: Reference)
      returns (path: InputPath, after: Surface)
      requires separate
      requires Coherent(reference) && SurfaceCoherent(surface, reference) && Numbered(frame, reference)
      modifies this
      ensures Updates(surface, after, old(nextTexture), nextTexture)
      ensures path != NoPath ==> Coherent(reference) && SurfaceCoherent(after, reference)
      ensures path != NoPath ==> Prepared(frame, after, old(Cached(frame)))
      ensures path != NoPath ==> after.texture.value.nv12 ==> supportsNv12
      ensures path == VideoProcessor ==> ScalesFor(frame.width, frame.height, after.texture.value.nv12)
      ensures path != NoPath ==> Cached(frame) == old(Cached(frame))
      ensures path == CachedSurface ==> after == surface
    {
      after := surface;
      var ok: bool;
      var canonicalChanged := !CanonicalHit(frame);
      if canonicalChanged {
        ok, after := PrepareCanonicalFrame(frame, after, false, reference);
        if !ok { return NoPath, after; }
      }
      ok, after := EnsureEncoderInputSurface(after);
      if !ok { return NoPath, after; }
      var cached := frame.sequence != 0 && Identifies(after, frame);
      if !cached {
        after := CopyInto(after, canonical.value.content);
        after := after.(epoch := frame.epoch, sequence := frame.sequence);
      }
      path := if canonicalChanged then VideoProcessor else if cached then CachedSurface else BgraCopyFallback;
    }

    method PrepareSharedFrame(frame: Source, surface: Surface, ghost reference: Reference)
      returns (path: InputPath, after: Surface)
      requires separate
      requires Coherent(reference) && SurfaceCoherent(surface, reference) && Numbered(frame, reference)
      modifies this
      ensures Updates(surface, after, old(nextTexture), nextTexture)
      ensures path != NoPath ==> Coherent(reference) && SurfaceCoherent(after, reference)
      ensures path != NoPath ==> Prepared(frame, after, old(Served(frame)))
      ensures path != NoPath && width > 0 && height > 0 ==> Encodable(after.texture)
      ensures path == VideoProcessor && !Identifies(surface, frame) ==>
                ScalesFor(frame.width, frame.height, after.texture.value.nv12)
      ensures path != NoPath ==> Cached(frame) == frame.image || Cached(frame) == old(Cached(frame))
      ensures path == CachedSurface ==> after == surface
    {
      if SkipsCanonical(frame) {
        path, after := PrepareBgraCopy(frame, surface, reference);
        return;
      }
      after := surface;
      var convertsDirect :=
        && directFresh && !earlyRetire && preferNv12 && supportsNv12
        && (canonicalEpoch != frame.epoch || canonicalSequence != frame.sequence)
        && frame.sequence != 0 && (frame.epoch != freshEpoch || frame.sequence != freshSequence);
      if convertsDirect {
        var ok: bool;
        ok, after := PrepareCanonicalFrame(frame, surface, true, reference);
        if !ok { return NoPath, after; }
        if Identifies(after, frame) {
          return if after.texture.Some? then VideoProcessor else NoPath, after;
        }
      }
      path, after := PrepareFromCanonical(frame, after, reference);
    }

    method PrepareFrame(frame: Source, surface: Surface, ghost reference: Reference)
      returns (path: InputPath, after: Surface)
      requires Coherent(reference) && SurfaceCoherent(surface, reference) && Numbered(frame, reference)
      modifies this
      ensures Updates(surface, after, old(nextTexture), nextTexture)
      ensures path != NoPath ==> Coherent(reference) && SurfaceCoherent(after, reference)
      ensures path != NoPath ==> Prepared(frame, after, old(Served(frame)))
      ensures path != NoPath ==> Encodable(after.texture)
      ensures path == VideoProcessor && !Identifies(surface, frame) ==>
                ScalesFor(frame.width, frame.height, after.texture.value.nv12)
      ensures path != NoPath ==> Cached(frame) == frame.image || Cached(frame) == old(Cached(frame))
      ensures path == CachedSurface ==> after == surface
    {
      after := surface;
      if width <= 0 || height <= 0 { return NoPath, after; }
      if separate {
        path, after := PrepareSharedFrame(frame, surface, reference);
        return;
      }
      var ok: bool;
      var native := supportsArgb && frame.width == width && frame.height == height && frame.native;
      if native && !preferNv12 {
        ok, after := EnsureBgraCopyOutput(surface);
        if !ok { return NoPath, after; }
      } else {
        ok := EnsureVideoScaler(frame.width, frame.height);
        if !ok { return NoPath, after; }
        ok, after := EnsureScaledOutput(surface);
        if !ok { return NoPath, after; }
        native := false;
        var viewed := DriverCall();
        if !viewed { return NoPath, after; }
      }
      if frame.sequence != 0 && Identifies(after, frame) { return CachedSurface, after; }
      if !native {
        var converted := DriverCall();
        if !converted { return NoPath, after; }
      }
      after := CopyInto(after, frame.image);
      after := after.(epoch := frame.epoch, sequence := frame.sequence);
      path := if native then BgraCopyFallback else VideoProcessor;
    }

    // Drops the slot's texture, prepares it anew and registers it.
    method PrepareAnew(frame: Source, surface: Surface, ghost reference: Reference)
      returns (path: InputPath, after: Surface, registered: bool)
      requires Coherent(reference) && Numbered(frame, reference)
      modifies this
      ensures Updates(surface, after, old(nextTexture), nextTexture)
      ensures path != NoPath ==> Coherent(reference) && SurfaceCoherent(after, reference)
      ensures path != NoPath ==> Prepared(frame, after, old(Served(frame))) && Encodable(after.texture)
      ensures path != NoPath ==> Cached(frame) == frame.image || Cached(frame) == old(Cached(frame))
    {
      path, after := PrepareFrame(frame, surface.(view := false, texture := None, generation := 0), reference);
      registered := false;
      if path != NoPath { registered := DriverCall(); }
    }

    /** Prepares and registers a frame's surface, with the format fallbacks a refused
        registration triggers. */
    method PrepareRegistered(frame: Source, surface: Surface, ghost reference: Reference)
      returns (path: InputPath, after: Surface)
      requires Coherent(reference) && SurfaceCoherent(surface, reference) && Numbered(frame, reference)
      modifies this
      ensures Updates(surface, after, old(nextTexture), nextTexture)
      ensures path != NoPath ==> Coherent(reference) && SurfaceCoherent(after, reference)
      ensures path != NoPath ==> Encodable(after.texture) && Identifies(after, frame)
      ensures path != NoPath ==>
                Shows(after.texture, frame)
                || (frame.sequence == 0 && after.texture.value.content == old(Cached(frame)))
    {
      path, after := PrepareFrame(frame, surface, reference);
      if path == NoPath { return; }
      var registered := DriverCall();
      if !registered && path == VideoProcessor && preferNv12 {
        preferNv12, supportsNv12 := false, false;
        if separate { ResetPreparedFrameBridge(); }
        path, after, registered := PrepareAnew(frame, after, reference);
      }
      if !registered && path == BgraCopyFallback {
        supportsArgb := false;
        path, after, registered := PrepareAnew(frame, after, reference);
      }
      if !registered { path := NoPath; }
    }
  }
}
