/** The staged file writer under the muxer. Any call of the operating system may fail; a
    failure is remembered and checked once at the end. */
module BufferedWriter {
  import opened Basics
  import opened AnnexB

  const MAX_WRITE_BYTES: nat := 0x8_0000
  const IO_CHUNK_BYTES: nat := 0x8_0000
  const SOURCE_READ_CHUNK_BYTES: nat := 0x20_0000

  class FileWriter {
    var contents: Bytes
    var good: bool

    constructor ()
      ensures contents == [] && good
    {
      contents, good := [], true;
    }

    // Writes in bounded requests. What a failing write leaves in the file is a prefix.
    method Write(bytes: Bytes) returns (ok: bool)
      modifies this
      ensures ok == good && (good ==> old(good))
      ensures ok ==> contents == old(contents) + bytes
      ensures old(contents) <= contents <= old(contents) + bytes
    {
      var written := 0;
      while written < |bytes| && good
        invariant written <= |bytes| && contents == old(contents) + bytes[..written]
        invariant good ==> old(good)
        decreases |bytes| - written, good
      {
        var request := Min(|bytes| - written, MAX_WRITE_BYTES);
        var accepted: bool := *;
        if !accepted {
          var part: nat :| part <= request;
          assert bytes[..written + part] == bytes[..written] + bytes[written..written + part];
          contents, good := contents + bytes[written..written + part], false;
          return false;
        }
        assert bytes[..written + request] == bytes[..written] + bytes[written..written + request];
        contents := contents + bytes[written..written + request];
        written := written + request;
      }
      assert bytes[..|bytes|] == bytes;
      ok := good;
    }
  }

  class BufferedByteWriter {
    const out: FileWriter
    const capacity: nat
    var buffer: Bytes

    constructor (out: FileWriter, capacity: nat)
      ensures this.out == out && this.capacity == Max(capacity, 1) && buffer == []
    {
      this.out, this.capacity := out, Max(capacity, 1);
      buffer := [];
    }

    /** Everything handed over so far, staged or in the file. */
    ghost function Pending(): Bytes
      reads this, out
    {
      out.contents + buffer
    }

    ghost predicate Valid()
      reads this
    {
      capacity >= 1 && |buffer| <= capacity
    }

    method Flush()
      requires Valid()
      modifies this, out
      ensures Valid() && buffer == [] && (out.good ==> old(out.good))
      ensures out.good ==> out.contents == old(Pending())
    {
      if buffer == [] {
        assert out.contents + [] == out.contents;
        return;
      }
      var offset := 0;
      ghost var before := out.contents;
      while offset < |buffer|
        invariant offset <= |buffer| && buffer == old(buffer)
        invariant out.good ==> old(out.good) && out.contents == before + buffer[..offset]
      {
        var count := Min(IO_CHUNK_BYTES, |buffer| - offset);
        var wrote := out.Write(buffer[offset..offset + count]);
        if !wrote { break; }
        assert buffer[..offset + count] == buffer[..offset] + buffer[offset..offset + count];
        offset := offset + count;
      }
      assert offset == |buffer| ==> buffer[..offset] == buffer;
      buffer := [];
    }

    // Whatever the capacity, the bytes go out in order and none is lost.
    method Write(bytes: Bytes)
      requires Valid()
      modifies this, out
      ensures Valid() && (out.good ==> old(out.good))
      ensures out.good ==> Pending() == old(Pending()) + bytes
    {
      var done := 0;
      assert old(Pending()) + bytes[..0] == old(Pending());
      while done < |bytes|
        invariant Valid() && done <= |bytes|
        invariant out.good ==> old(out.good) && Pending() == old(Pending()) + bytes[..done]
        decreases |bytes| - done, |buffer|
      {
        var available := capacity - |buffer|;
        if available == 0 {
          Flush();
          assert out.contents + [] == out.contents;
          continue;
        }
        var count := Min(available, |bytes| - done);
        Regroup(out.contents, buffer, bytes[done..done + count]);
        Regroup(old(Pending()), bytes[..done], bytes[done..done + count]);
        assert bytes[..done + count] == bytes[..done] + bytes[done..done + count];
        buffer := buffer + bytes[done..done + count];
        done := done + count;
      }
      assert bytes[..|bytes|] == bytes;
    }

    // Copies a range of a stored payload through the buffer in bounded reads.
    method WriteFromReader(source: Bytes, offset: nat, size: nat) returns (ok: bool)
      requires Valid() && offset + size <= |source|
      modifies this, out
      ensures Valid() && (out.good ==> old(out.good))
      ensures ok && out.good ==> Pending() == old(Pending()) + source[offset..offset + size]
    {
      var done := 0;
      assert old(Pending()) + source[offset..offset] == old(Pending());
      while done < size
        invariant Valid() && done <= size
        invariant out.good ==> old(out.good) && Pending() == old(Pending()) + source[offset..offset + done]
        decreases size - done, |buffer|
      {
        var available := capacity - |buffer|;
        if available == 0 {
          Flush();
          assert out.contents + [] == out.contents;
          continue;
        }
        var count := Min(available, Min(size - done, SOURCE_READ_CHUNK_BYTES));
        var at := offset + done;
        var read: bool := *;
        if !read { return false; }
        Regroup(out.contents, buffer, source[at..at + count]);
        Regroup(old(Pending()), source[offset..at], source[at..at + count]);
        assert source[offset..at + count] == source[offset..at] + source[at..at + count];
        buffer := buffer + source[at..at + count];
        done := done + count;
      }
      ok := true;
    }

    // A packet range, from memory or through its reader.
    method WritePacketRange(packet: Bytes, inMemory: bool, offset: nat, size: nat) returns (ok: bool)
      requires Valid()
      modifies this, out
      ensures Valid() && (out.good ==> old(out.good))
      ensures ok ==> offset + size <= |packet|
      ensures ok && out.good ==> Pending() == old(Pending()) + packet[offset..offset + size]
    {
      if offset + size > |packet| { return false; }
      if size == 0 {
        assert Pending() + [] == Pending();
        return true;
      }
      if inMemory {
        Write(packet[offset..offset + size]);
        return true;
      }
      ok := WriteFromReader(packet, offset, size);
    }

    // One video sample: each unit after its length.
    method WriteAvccSample(packet: Bytes, inMemory: bool, spans: seq<Span>) returns (ok: bool)
      requires Valid()
      modifies this, out
      ensures Valid() && (out.good ==> old(out.good))
      ensures ok && out.good ==> Pending() == old(Pending()) + Prefixed(Payloads(packet, spans))
    {
      ghost var base := Pending();
      assert base + [] == base;
      for i := 0 to |spans|
        invariant Valid() && (out.good ==> old(out.good))
        invariant out.good ==> Pending() == base + Prefixed(Payloads(packet, spans[..i]))
      {
        var span := spans[i];
        ghost var before := Prefixed(Payloads(packet, spans[..i]));
        ghost var size, payload := U32Bytes(span.size), Payload(packet, span);
        Write(U32Bytes(span.size));
        ok := WritePacketRange(packet, inMemory, span.offset, span.size);
        if !ok { return; }
        PayloadsAppend(packet, spans, i);
        PrefixedAppend(Payloads(packet, spans[..i]), payload);
        Regroup(base + before, size, payload);
        Regroup(base, before, size + payload);
      }
      assert spans[..|spans|] == spans;
      ok := true;
    }
  }
}
