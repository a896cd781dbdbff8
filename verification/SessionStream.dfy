/**
 * Packets through an established session: sendPacket (internal/protocol/tcp/client.go)
 * and the reading half of ServeSession (internal/protocol/tcp/session_loop.go).
 */
module SessionStream {
  import opened Basics
  import opened Coap
  import Framing
  import SessionCodec

  /** A packet on its way out: its options in wire order, and the random vector of its frame. */
  datatype Outgoing = Outgoing(packet: Packet, sorted: seq<CoapOption>, iv: Bytes)

  /** The frame content that carries `o`. */
  function Seal(codec: SessionCodec.Codec, o: Outgoing): Bytes
    requires Marshals(o.packet) && Ascending(o.sorted, 0)
  {
    SessionCodec.Encrypt(codec, o.iv, Encode(o.packet, o.sorted))
  }

  ghost predicate Sendable(codec: SessionCodec.Codec, o: Outgoing) {
    && Marshals(o.packet) && o.packet.typ < 4
    && SortedByNumber(o.packet.options, o.sorted) && Ascending(o.sorted, 0) && ShortValues(o.sorted)
    && |o.iv| == SessionCodec.BLOCK_SIZE
    && |Seal(codec, o)| < 0x1_0000
  }

  ghost predicate AllSendable(codec: SessionCodec.Codec, outgoing: seq<Outgoing>) {
    forall i :: 0 <= i < |outgoing| ==> Sendable(codec, outgoing[i])
  }

  /** The packet as the other end gets it. */
  function Delivered(o: Outgoing): Packet {
    o.packet.(version := VERSION1, options := o.sorted)
  }

  function AllDelivered(outgoing: seq<Outgoing>): seq<Packet> {
    if outgoing == [] then [] else [Delivered(outgoing[0])] + AllDelivered(outgoing[1..])
  }

  /** The bytes on the wire when the packets are written back to back. */
  ghost function Wire(codec: SessionCodec.Codec, outgoing: seq<Outgoing>): Bytes
    requires AllSendable(codec, outgoing)
  {
    if outgoing == [] then []
    else Framing.Frame(Seal(codec, outgoing[0])) + Wire(codec, outgoing[1..])
  }

  datatype SendError = NotSent | Unmarshallable(marshal: Coap.Error) | Unframed(frame: Framing.Error)

  datatype Stop =
    | ReadFailed(read: Framing.Error)
    | DecryptFailed(decrypt: SessionCodec.Error)
    | ParseFailed(parse: Coap.Error)
    | Cancelled
    | DispatchFailed
    | ReplyFailed(send: SendError)

  /** One turn of the session loop: the packet read, or why the session stops, and the rest of the stream. */
  function ReceiveOne(codec: SessionCodec.Codec, unread: Bytes): (r: (Result<Packet, Stop>, Bytes))
    ensures r.0.Ok? ==> |r.1| < |unread|
  {
    var (frame, rest) := Framing.ReadOne(unread, Framing.DEFAULT_MAX_FRAME_SIZE);
    if frame.Err? then (Err(ReadFailed(frame.error)), rest)
    else
      var plaintext := SessionCodec.Decrypt(codec, frame.value);
      if plaintext.Err? then (Err(DecryptFailed(plaintext.error)), rest)
      else
        var packet := Decode(plaintext.value);
        if packet.Err? then (Err(ParseFailed(packet.error)), rest) else (Ok(packet.value), rest)
  }

  /** All packets the loop reads, why it stops, and what it leaves unread. */
  function Receive(codec: SessionCodec.Codec, unread: Bytes): (seq<Packet>, Stop, Bytes)
    decreases |unread|
  {
    var (packet, rest) := ReceiveOne(codec, unread);
    if packet.Err? then ([], packet.error, rest)
    else
      var (packets, stop, left) := Receive(codec, rest);
      ([packet.value] + packets, stop, left)
  }

  lemma ReceivesWhatWasSealed(codec: SessionCodec.Codec, o: Outgoing, tail: Bytes)
    requires SessionCodec.Lawful(codec.suite) && Sendable(codec, o)
    ensures ReceiveOne(codec, Framing.Frame(Seal(codec, o)) + tail) == (Ok(Delivered(o)), tail)
  {
    Framing.ReadInvertsWrite(Framing.Frame(Seal(codec, o)) + tail, Framing.DEFAULT_MAX_FRAME_SIZE, Seal(codec, o), tail);
    SessionCodec.RoundTrip(codec, o.iv, Encode(o.packet, o.sorted));
    ParseInvertsMarshal(o.packet, o.sorted);
  }

  /**
   * Packets written back to back are read in order, and reading goes on with
   * whatever follows them on the stream.
   */
  lemma {:induction false} ReceiveInvertsSend(codec: SessionCodec.Codec, outgoing: seq<Outgoing>, tail: Bytes)
    requires SessionCodec.Lawful(codec.suite)
    requires AllSendable(codec, outgoing)
    ensures var (packets, stop, left) := Receive(codec, tail);
            Receive(codec, Wire(codec, outgoing) + tail) == (AllDelivered(outgoing) + packets, stop, left)
    decreases |outgoing|
  {
    hide ReceiveOne, Seal, SessionCodec.Encrypt, Framing.Frame, Encode;
    if outgoing == [] {
      assert Wire(codec, outgoing) + tail == tail;
      assert [] + Receive(codec, tail).0 == Receive(codec, tail).0;
    } else {
      var rest := Wire(codec, outgoing[1..]) + tail;
      ReceiveInvertsSend(codec, outgoing[1..], tail);
      ReceivesWhatWasSealed(codec, outgoing[0], rest);
      assert Wire(codec, outgoing) + tail == Framing.Frame(Seal(codec, outgoing[0])) + rest;
      assert [Delivered(outgoing[0])] + (AllDelivered(outgoing[1..]) + Receive(codec, tail).0)
          == AllDelivered(outgoing) + Receive(codec, tail).0;
    }
  }

  /** With nothing after them, the whole stream is consumed and the session ends at a frame boundary. */
  lemma StreamInversion(codec: SessionCodec.Codec, outgoing: seq<Outgoing>)
    requires SessionCodec.Lawful(codec.suite)
    requires AllSendable(codec, outgoing)
    ensures Receive(codec, Wire(codec, outgoing))
         == (AllDelivered(outgoing), ReadFailed(Framing.EndOfFile), [])
  {
    ReceiveInvertsSend(codec, outgoing, []);
    assert Wire(codec, outgoing) + [] == Wire(codec, outgoing);
    assert AllDelivered(outgoing) + [] == AllDelivered(outgoing);
  }

  /** When the connection breaks inside a frame, all packets before it are received, and then the session ends. */
  lemma BrokenStream(codec: SessionCodec.Codec, outgoing: seq<Outgoing>, last: Outgoing, part: Bytes)
    requires SessionCodec.Lawful(codec.suite) && AllSendable(codec, outgoing) && Sendable(codec, last)
    requires part < Framing.Frame(Seal(codec, last))
    ensures var (packets, stop, left) := Receive(codec, Wire(codec, outgoing) + part);
            packets == AllDelivered(outgoing) && stop.ReadFailed? && left == []
  {
    hide Framing.Frame, Framing.ReadOne, Seal, SessionCodec.Encrypt;
    ReceiveInvertsSend(codec, outgoing, part);
    Framing.HalfFrameIsNotRead(Seal(codec, last), part, Framing.DEFAULT_MAX_FRAME_SIZE);
    assert Receive(codec, part).0 == [];
    assert AllDelivered(outgoing) + [] == AllDelivered(outgoing);
  }

  /**
   * Nothing else is accepted: a packet read without 16-bit overflow stood on the
   * stream exactly as sendPacket would have written it under some vector.
   */
  lemma AcceptedWasSealed(codec: SessionCodec.Codec, unread: Bytes, packet: Packet, rest: Bytes)
    requires SessionCodec.Lawful(codec.suite)
    requires ReceiveOne(codec, unread) == (Ok(packet), rest)
    requires var frame := Framing.ReadOne(unread, Framing.DEFAULT_MAX_FRAME_SIZE).0.value;
             Fits(SessionCodec.Decrypt(codec, frame).value)
    ensures exists o :: Sendable(codec, o) && Delivered(o) == packet &&
                        unread == Framing.Frame(Seal(codec, o)) + rest
  {
    var frame := Framing.ReadOne(unread, Framing.DEFAULT_MAX_FRAME_SIZE).0.value;
    Framing.ReadInvertsWrite(unread, Framing.DEFAULT_MAX_FRAME_SIZE, frame, rest);
    var plaintext := SessionCodec.Decrypt(codec, frame).value;
    SessionCodec.DecryptInvertsEncrypt(codec, frame, plaintext);
    AcceptedIsCanonical(plaintext);
    var o := Outgoing(packet, packet.options, frame[..SessionCodec.BLOCK_SIZE]);
    assert Seal(codec, o) == frame;
    assert Sendable(codec, o);
  }

  lemma AcceptedIsCanonical(plaintext: Bytes)
    requires Decode(plaintext).Ok? && Fits(plaintext)
    ensures var packet := Decode(plaintext).value;
            packet.version == VERSION1 && packet.typ < 4 && Marshals(packet) &&
            SortedByNumber(packet.options, packet.options) && Ascending(packet.options, 0) &&
            ShortValues(packet.options) && Encode(packet, packet.options) == plaintext
  {
    hide Decode, Fits, Encode, Ascending, SortedByNumber, ShortValues;
    var packet := Decode(plaintext).value;
    AcceptedIsMarshalled(plaintext);
    var p :| Marshals(p) && p.typ < 4 && Ascending(p.options, 0) && ShortValues(p.options) && plaintext == Encode(p, p.options);
    ParseInvertsMarshal(p, p.options);
    assert packet == p.(version := VERSION1);
    VersionIsWritten(p);
    AscendingIsSorted(p.options, 0);
    SortedIsOwnSorting(p.options);
  }

  /** A packet without a version is written as version 1. */
  lemma VersionIsWritten(packet: Packet)
    requires Marshals(packet) && Ascending(packet.options, 0)
    ensures Encode(packet.(version := VERSION1), packet.options) == Encode(packet, packet.options)
  {
  }

  // ---------------------------------------------------------------- the code

  function TokenForMessageId(messageId: uint16): Bytes {
    PutUint16(messageId)
  }

  /** The packet sendPacket marshals; `freshId` is what nextMessageID would return. */
  function WithDefaults(packet: Packet, freshId: uint16, ensureToken: bool): Packet {
    var id := if packet.messageId == 0 then freshId else packet.messageId;
    packet.(
      messageId := id,
      version := if packet.version == 0 then VERSION1 else packet.version,
      token := if ensureToken && packet.token == [] then TokenForMessageId(id) else packet.token)
  }

  /** `bytes` is one frame that carries the packet, under the vector. */
  ghost predicate IsFrameOf(codec: SessionCodec.Codec, packet: Packet, iv: Bytes, bytes: Bytes) {
    Marshals(packet) &&
    exists sorted ::
      SortedByNumber(packet.options, sorted) && Ascending(sorted, 0) &&
      |Seal(codec, Outgoing(packet, sorted, iv))| < 0x1_0000 &&
      bytes == Framing.Frame(Seal(codec, Outgoing(packet, sorted, iv)))
  }

  /** What a send leaves on the stream: the frame, or nothing, or on a broken connection a part of the frame. */
  ghost predicate Sent(
    codec: SessionCodec.Codec, packet: Packet, iv: Bytes, before: Bytes, after: Bytes, r: Result<(), SendError>)
  {
    if r.Ok? then exists frame :: IsFrameOf(codec, packet, iv, frame) && after == before + frame
    else if r.error == Unframed(Framing.WriteFailed) then
      exists frame :: IsFrameOf(codec, packet, iv, frame) && before <= after < before + frame
    else after == before
  }

  /** Marshals, encrypts and writes one packet, as sendPacket and ServeSession do. */
  method WritePacket(codec: SessionCodec.Codec, writer: Framing.Writer, packet: Packet, iv: Bytes) returns (r: Result<(), SendError>)
    requires SessionCodec.Lawful(codec.suite) && |iv| == SessionCodec.BLOCK_SIZE
    modifies writer.stream
    ensures Sent(codec, packet, iv, old(writer.stream.unread), writer.stream.unread, r)
    ensures r.Err? && r.error.Unmarshallable? <==> !Marshals(packet)
    ensures r != Err(NotSent)
  {
    hide Encode, SessionCodec.Encrypt, SessionCodec.Decrypt, Framing.Frame;
    var plaintext := Marshal(packet);
    if plaintext.Err? {
      return Err(Unmarshallable(plaintext.error));
    }
    ghost var sorted :| SortedByNumber(packet.options, sorted) && Ascending(sorted, 0) && plaintext.value == Encode(packet, sorted);
    var message := SessionCodec.EncryptMessage(codec, iv, plaintext.value);
    assert message == Seal(codec, Outgoing(packet, sorted, iv));
    var written := writer.WriteFrame(message);
    if written != Err(Framing.FrameTooLarge) {
      assert IsFrameOf(codec, packet, iv, Framing.Frame(message));
    }
    return if written.Ok? then Ok(()) else Err(Unframed(written.error));
  }

  /** sendPacket: nothing is sent on a cancelled context. */
  method SendPacket(codec: SessionCodec.Codec, writer: Framing.Writer, packet: Packet, freshId: uint16,
                    ensureToken: bool, iv: Bytes, cancelled: bool)
    returns (r: Result<(), SendError>)
    requires SessionCodec.Lawful(codec.suite) && |iv| == SessionCodec.BLOCK_SIZE
    modifies writer.stream
    ensures Sent(codec, WithDefaults(packet, freshId, ensureToken), iv, old(writer.stream.unread), writer.stream.unread, r)
    ensures r == Err(NotSent) <==> cancelled
    ensures !cancelled ==> (r.Err? && r.error.Unmarshallable? <==> !Marshals(WithDefaults(packet, freshId, ensureToken)))
  {
    hide Sent, Encode, SessionCodec.Encrypt, Framing.Frame;
    if cancelled {
      NothingSent(codec, WithDefaults(packet, freshId, ensureToken), iv, writer.stream.unread);
      return Err(NotSent);
    }
    var p := packet;
    if p.messageId == 0 {
      p := p.(messageId := freshId);
    }
    if p.version == 0 {
      p := p.(version := VERSION1);
    }
    if ensureToken && |p.token| == 0 {
      p := p.(token := TokenForMessageId(p.messageId));
    }
    assert p == WithDefaults(packet, freshId, ensureToken);
    r := WritePacket(codec, writer, p, iv);
  }

  lemma NothingSent(codec: SessionCodec.Codec, packet: Packet, iv: Bytes, stream: Bytes)
    ensures Sent(codec, packet, iv, stream, stream, Err(NotSent))
  {
  }

  function After(packets: seq<Packet>, rest: (seq<Packet>, Stop, Bytes)): (seq<Packet>, Stop, Bytes) {
    (packets + rest.0, rest.1, rest.2)
  }

  lemma AfterNothing(rest: (seq<Packet>, Stop, Bytes))
    ensures After([], rest) == rest
  {
    assert [] + rest.0 == rest.0;
  }

  lemma ReceiveUnfolds(codec: SessionCodec.Codec, unread: Bytes)
    ensures var (packet, rest) := ReceiveOne(codec, unread);
            Receive(codec, unread)
            == if packet.Err? then ([], packet.error, rest) else After([packet.value], Receive(codec, rest))
  {
  }

  /** What becomes of a packet: the client takes it, or the message handler answers it, or not, or fails. */
  datatype Verdict = Handled | Silent | Reply(packet: Packet) | Failure

  ghost predicate IsReply(codec: SessionCodec.Codec, verdict: Verdict, iv: Bytes, bytes: Bytes) {
    match verdict
    case Handled => bytes == []
    case Silent => bytes == []
    case Reply(packet) => IsFrameOf(codec, packet, iv, bytes)
    case Failure => false
  }

  ghost predicate AreReplies(
    codec: SessionCodec.Codec, dispatch: seq<Packet> -> Verdict, ivs: nat -> Bytes, packets: seq<Packet>, replies: seq<Bytes>)
  {
    |replies| <= |packets| &&
    forall k :: 0 <= k < |replies| ==> IsReply(codec, dispatch(packets[..k + 1]), ivs(k), replies[k])
  }

  /**
   * The session loop. The verdict on a packet may depend on all packets so far. The
   * packets read are those on the stream, from its start, up to where the session
   * stops; each gets its reply, in order; and the session stops for the reason given.
   */
  method ServeSession(
    codec: SessionCodec.Codec, stream: Framing.ByteStream, writer: Framing.Writer,
    dispatch: seq<Packet> -> Verdict, cancelled: nat -> bool, ivs: nat -> Bytes)
    returns (packets: seq<Packet>, stop: Stop, ghost replies: seq<Bytes>)
    requires SessionCodec.Lawful(codec.suite) && writer.stream != stream
    requires forall k :: |ivs(k)| == SessionCodec.BLOCK_SIZE
    modifies stream, writer.stream
    ensures packets <= Receive(codec, old(stream.unread)).0
    ensures stop.ReadFailed? || stop.DecryptFailed? || stop.ParseFailed? ==>
              (packets, stop, stream.unread) == Receive(codec, old(stream.unread))
    ensures stop.Cancelled? ==> cancelled(|packets|)
    ensures stop.DispatchFailed? ==> packets != [] && dispatch(packets) == Failure
    ensures stop.ReplyFailed? ==>
              packets != [] && dispatch(packets).Reply? &&
              Sent(codec, dispatch(packets).packet, ivs(|packets| - 1), old(writer.stream.unread) + Concat(replies),
                   writer.stream.unread, Err(stop.send))
    ensures AreReplies(codec, dispatch, ivs, packets, replies)
    ensures |replies| == if stop.DispatchFailed? || stop.ReplyFailed? then |packets| - 1 else |packets|
    ensures !stop.ReplyFailed? ==> writer.stream.unread == old(writer.stream.unread) + Concat(replies)
  {
    hide Receive, ReceiveOne, Sent, IsReply, AreReplies, Concat;
    packets, replies := [], [];
    NoReplies(codec, dispatch, ivs);
    AfterNothing(Receive(codec, stream.unread));
    while true
      invariant Receive(codec, old(stream.unread)) == After(packets, Receive(codec, stream.unread))
      invariant AreReplies(codec, dispatch, ivs, packets, replies) && |replies| == |packets|
      invariant writer.stream.unread == old(writer.stream.unread) + Concat(replies)
      decreases |stream.unread|
    {
      if cancelled(|packets|) {
        return packets, Cancelled, replies;
      }
      ghost var before := stream.unread;
      ReceiveUnfolds(codec, before);
      assert packets + [] == packets;
      var next := ReadPacket(codec, stream);
      if next.Err? {
        return packets, next.error, replies;
      }
      assert packets + ([next.value] + Receive(codec, stream.unread).0)
          == packets + [next.value] + Receive(codec, stream.unread).0;
      packets := packets + [next.value];
      var verdict := dispatch(packets);
      MoreReplies(codec, dispatch, ivs, packets, replies);
      if verdict.Failure? {
        return packets, DispatchFailed, replies;
      }
      var sent := Answer(codec, writer, verdict, ivs(|packets| - 1));
      if sent.Err? {
        return packets, ReplyFailed(sent.error), replies;
      }
      ghost var reply := writer.stream.unread[old(|writer.stream.unread|) + |Concat(replies)|..];
      ConcatAppend(replies, reply);
      OneMoreReply(codec, dispatch, ivs, packets, replies, reply);
      replies := replies + [reply];
    }
  }

  /** The reading part of a turn. */
  method ReadPacket(codec: SessionCodec.Codec, stream: Framing.ByteStream) returns (r: Result<Packet, Stop>)
    requires SessionCodec.Lawful(codec.suite)
    modifies stream
    ensures (r, stream.unread) == ReceiveOne(codec, old(stream.unread))
    ensures r.Err? ==> r.error.ReadFailed? || r.error.DecryptFailed? || r.error.ParseFailed?
  {
    hide Decode, Framing.ReadOne, SessionCodec.Decrypt, SessionCodec.Encrypt;
    var reader := new Framing.Reader(stream, Framing.DEFAULT_MAX_FRAME_SIZE);
    var frame := reader.ReadFrame();
    if frame.Err? {
      return Err(ReadFailed(frame.error));
    }
    var plaintext := SessionCodec.DecryptMessage(codec, frame.value);
    if plaintext.Err? {
      return Err(DecryptFailed(plaintext.error));
    }
    var packet := Parse(plaintext.value);
    return if packet.Ok? then Ok(packet.value) else Err(ParseFailed(packet.error));
  }

  /** The replying part of a turn. */
  method Answer(codec: SessionCodec.Codec, writer: Framing.Writer, verdict: Verdict, iv: Bytes) returns (r: Result<(), SendError>)
    requires SessionCodec.Lawful(codec.suite) && |iv| == SessionCodec.BLOCK_SIZE && !verdict.Failure?
    modifies writer.stream
    ensures old(writer.stream.unread) <= writer.stream.unread
    ensures r.Ok? ==> IsReply(codec, verdict, iv, writer.stream.unread[old(|writer.stream.unread|)..])
    ensures r.Err? ==>
              verdict.Reply? && Sent(codec, verdict.packet, iv, old(writer.stream.unread), writer.stream.unread, r)
  {
    hide IsFrameOf;
    if !verdict.Reply? {
      return Ok(());
    }
    r := WritePacket(codec, writer, verdict.packet, iv);
  }

  lemma NoReplies(codec: SessionCodec.Codec, dispatch: seq<Packet> -> Verdict, ivs: nat -> Bytes)
    ensures AreReplies(codec, dispatch, ivs, [], []) && Concat([]) == []
  {
  }

  /** Replies to the packets so far stay that when one more packet comes. */
  lemma MoreReplies(
    codec: SessionCodec.Codec, dispatch: seq<Packet> -> Verdict, ivs: nat -> Bytes, packets: seq<Packet>, replies: seq<Bytes>)
    requires packets != [] && AreReplies(codec, dispatch, ivs, packets[..|packets| - 1], replies)
    ensures AreReplies(codec, dispatch, ivs, packets, replies)
  {
    hide IsReply;
    forall k | 0 <= k < |replies| ensures IsReply(codec, dispatch(packets[..k + 1]), ivs(k), replies[k]) {
      assert packets[..|packets| - 1][..k + 1] == packets[..k + 1];
    }
  }

  lemma OneMoreReply(
    codec: SessionCodec.Codec, dispatch: seq<Packet> -> Verdict, ivs: nat -> Bytes, packets: seq<Packet>, replies: seq<Bytes>,
    reply: Bytes)
    requires AreReplies(codec, dispatch, ivs, packets, replies) && |replies| == |packets| - 1
    requires IsReply(codec, dispatch(packets), ivs(|packets| - 1), reply)
    ensures AreReplies(codec, dispatch, ivs, packets, replies + [reply])
  {
    hide IsReply;
    assert packets[..|packets|] == packets;
  }
}
