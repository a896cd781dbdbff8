/** Length-prefixed frames over a byte stream: internal/protocol/framing/framing.go. */
module Framing {
  import opened Basics

  const DEFAULT_MAX_FRAME_SIZE := 64 * 1024

  datatype Error = EndOfFile | UnexpectedEndOfFile | FrameTooLarge | WriteFailed

  function Frame(content: Bytes): Bytes
    requires |content| < 0x1_0000
  {
    PutUint16(|content|) + content
  }

  function ShortRead(available: Bytes): Error {
    if available == [] then EndOfFile else UnexpectedEndOfFile
  }

  /** The outcome of reading one frame, and the bytes left unread after it. */
  function ReadOne(unread: Bytes, max: nat): (Result<Bytes, Error>, Bytes) {
    if |unread| < 2 then (Err(ShortRead(unread)), [])
    else
      var size := Uint16(unread[..2]);
      if size > max then (Err(FrameTooLarge), unread[2..])
      else if |unread| < 2 + size then (Err(ShortRead(unread[2..])), [])
      else (Ok(unread[2..2 + size]), unread[2 + size..])
  }

  /** A reader gets a frame exactly when the stream starts with that frame and it is not too large. */
  lemma ReadInvertsWrite(unread: Bytes, max: nat, content: Bytes, rest: Bytes)
    ensures ReadOne(unread, max) == (Ok(content), rest)
       <==> |content| < 0x1_0000 && |content| <= max && unread == Frame(content) + rest
  {
    if ReadOne(unread, max) == (Ok(content), rest) {
      assert unread[..2] == PutUint16(|content|);
      assert unread == unread[..2] + unread[2..2 + |content|] + unread[2 + |content|..];
    }
    if |content| < 0x1_0000 && |content| <= max && unread == Frame(content) + rest {
      assert unread[..2] == PutUint16(|content|);
      assert unread[2..2 + |content|] == content;
      assert unread[2 + |content|..] == rest;
    }
  }

  /** A frame of which only a part was written is not read as a frame. */
  lemma HalfFrameIsNotRead(content: Bytes, part: Bytes, max: nat)
    requires |content| < 0x1_0000 && |content| <= max && part < Frame(content)
    ensures ReadOne(part, max) == (Err(if part == [] || |part| == 2 then EndOfFile else UnexpectedEndOfFile), [])
  {
    if |part| >= 2 {
      assert part[..2] == Frame(content)[..2] == PutUint16(|content|);
    }
  }

  /** One direction of a connection: what was written and not yet read. */
  class ByteStream {
    var unread: Bytes

    constructor ()
      ensures unread == []
    {
      unread := [];
    }

    /** io.ReadFull on a stream whose writer is done. */
    method ReadFull(n: nat) returns (r: Result<Bytes, Error>)
      modifies this
      ensures n <= old(|unread|) ==> r == Ok(old(unread)[..n]) && unread == old(unread)[n..]
      ensures n > old(|unread|) ==> r == Err(ShortRead(old(unread))) && unread == []
    {
      if n <= |unread| {
        r := Ok(unread[..n]);
        unread := unread[n..];
      } else {
        r := Err(ShortRead(unread));
        unread := [];
      }
    }

    /** A write that fails may have written a part. */
    method Write(data: Bytes) returns (ok: bool)
      modifies this
      ensures ok ==> unread == old(unread) + data
      ensures !ok ==> old(unread) <= unread < old(unread) + data
    {
      var written: int := *;
      if 0 <= written < |data| {
        unread := unread + data[..written];
        return false;
      }
      unread := unread + data;
      return true;
    }
  }

  class Reader {
    const stream: ByteStream
    const max: nat

    constructor (stream: ByteStream, maxFrameSize: nat)
      ensures this.stream == stream
      ensures max == if maxFrameSize == 0 then DEFAULT_MAX_FRAME_SIZE else maxFrameSize
    {
      this.stream := stream;
      max := if maxFrameSize == 0 then DEFAULT_MAX_FRAME_SIZE else maxFrameSize;
    }

    method ReadFrame() returns (r: Result<Bytes, Error>)
      modifies stream
      ensures (r, stream.unread) == ReadOne(old(stream.unread), max)
    {
      var header := stream.ReadFull(2);
      if header.Err? {
        return header;
      }
      var size := Uint16(header.value);
      if size > max {
        return Err(FrameTooLarge);
      }
      r := stream.ReadFull(size);
      assert old(stream.unread)[2..][..Min(size, old(|stream.unread|) - 2)]
          == old(stream.unread)[2..2 + Min(size, old(|stream.unread|) - 2)];
    }
  }

  class Writer {
    const stream: ByteStream

    constructor (stream: ByteStream)
      ensures this.stream == stream
    {
      this.stream := stream;
    }

    method WriteFrame(content: Bytes) returns (r: Result<(), Error>)
      modifies stream
      ensures |content| >= 0x1_0000 <==> r == Err(FrameTooLarge)
      ensures r == Err(FrameTooLarge) ==> stream.unread == old(stream.unread)
      ensures r.Ok? ==> stream.unread == old(stream.unread) + Frame(content)
      ensures r.Err? && r != Err(FrameTooLarge) ==>
                r.error == WriteFailed && old(stream.unread) <= stream.unread < old(stream.unread) + Frame(content)
    {
      if |content| > 0xffff {
        return Err(FrameTooLarge);
      }
      var ok := stream.Write(PutUint16(|content|));
      if !ok {
        return Err(WriteFailed);
      }
      ok := stream.Write(content);
      return if ok then Ok(()) else Err(WriteFailed);
    }
  }
}
