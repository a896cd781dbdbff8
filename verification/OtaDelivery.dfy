/**
 * The chunk requests of an over-the-air update (internal/protocol/tcp/client.go),
 * and what a device makes of them.
 */
module OtaDelivery {
  import opened Basics
  import opened Coap
  import opened ChunkManifest
  import FlashInterleaving
  import FlashJobs
  import SessionCodec
  import SessionStream
  import Sorting

  const CODE_POST: byte := 2
  const CHUNK_PATH: Bytes := [0x63] // "c"

  /** The CRC-32 of a byte string. */
  type Checksum = Bytes -> uint32

  function Zeros(n: nat): Bytes {
    seq(n, _ => 0)
  }

  /** particleChunkPayload: short data is filled with zeros up to the chunk size. */
  function ChunkPayload(chunkSize: int, data: Bytes): Bytes {
    if chunkSize <= 0 || |data| >= chunkSize then data else data + Zeros(chunkSize - |data|)
  }

  /** particleChunkOptions: Go cuts the index to 16 bits. */
  function ChunkOptions(checksum: uint32, index: int, protocolVersion: byte): seq<CoapOption> {
    [CoapOption(OPTION_URI_PATH, CHUNK_PATH), CoapOption(OPTION_URI_QUERY, PutUint32(checksum))]
    + if protocolVersion > 0 then [CoapOption(OPTION_URI_QUERY, PutUint16(index % 0x1_0000))] else []
  }

  /** The request SendFlashChunk hands to SendRequest, with the defaults SendRequest fills in. */
  function ChunkRequest(crc: Checksum, protocolVersion: byte, chunkSize: int, index: int, data: Bytes, messageId: uint16)
    : Packet
  {
    var payload := ChunkPayload(chunkSize, data);
    Packet(VERSION1, CONFIRMABLE, CODE_POST, messageId, SessionStream.TokenForMessageId(messageId),
           ChunkOptions(crc(payload), index, protocolVersion), payload)
  }

  /** updateBeginPayload: chunk size and binary size are cut to 16 and 32 bits. */
  function UpdateBeginPayload(jobChunkSize: int, size: nat): Bytes {
    var chunkSize := EffectiveSize(jobChunkSize);
    [1] + PutUint16(chunkSize % 0x1_0000) + PutUint32(size % 0x1_0000_0000) + [0] + PutUint32(0)
  }

  // ---------------------------------------------------------------- sizes

  lemma ChunkOptionsAreSorted(checksum: uint32, index: int, protocolVersion: byte)
    ensures var options := ChunkOptions(checksum, index, protocolVersion);
            Sorting.Sorted(NumberBefore, options) && Ascending(options, 0) && ShortValues(options) &&
            SortedByNumber(options, options)
  {
    var options := ChunkOptions(checksum, index, protocolVersion);
    AscendingIsSorted(options, 0);
    SortedIsOwnSorting(options);
  }

  /** A chunk request takes 17 bytes beside its payload, or 14 when the index is not sent. */
  lemma ChunkRequestSize(crc: Checksum, protocolVersion: byte, chunkSize: int, index: int, data: Bytes, messageId: uint16)
    requires ChunkPayload(chunkSize, data) != []
    ensures var request := ChunkRequest(crc, protocolVersion, chunkSize, index, data, messageId);
            Marshals(request) && Ascending(request.options, 0) &&
            |Encode(request, request.options)| ==
              (if protocolVersion > 0 then 17 else 14) + |ChunkPayload(chunkSize, data)|
  {
    var request := ChunkRequest(crc, protocolVersion, chunkSize, index, data, messageId);
    var options := request.options;
    ChunkOptionsAreSorted(crc(request.payload), index, protocolVersion);
    assert |Header(request)| == 6;
    BodySize3(options, request.payload);
  }

  lemma BodySize3(options: seq<CoapOption>, payload: Bytes)
    requires Ascending(options, 0) && payload != [] && 2 <= |options| <= 3
    requires options[0].number == 11 && |options[0].value| == 1
    requires options[1].number == 15 && |options[1].value| == 4
    requires |options| == 3 ==> options[2].number == 15 && |options[2].value| == 2
    ensures |EncodeBody(options, 0, payload)| == (if |options| == 3 then 11 else 8) + |payload|
  {
    var rest := options[1..];
    var last := rest[1..];
    assert EncodeBody(options, 0, payload) == WriteOption(11, options[0].value) + EncodeBody(rest, 11, payload);
    assert EncodeBody(rest, 11, payload) == WriteOption(4, rest[0].value) + EncodeBody(last, 15, payload);
    if |options| == 3 {
      assert EncodeBody(last, 15, payload) == WriteOption(0, last[0].value) + EncodeBody(last[1..], 15, payload);
      assert last[1..] == [];
    } else {
      assert last == [];
    }
    assert EncodeBody([], 15, payload) == EncodePayload(payload);
  }

  /**
   * A full chunk fits in a frame exactly up to 65470 bytes, or 65473 when the
   * device does not take chunk indexes.
   */
  lemma FullChunkFits(codec: SessionCodec.Codec, crc: Checksum, protocolVersion: byte, chunkSize: int, index: int,
                      data: Bytes, messageId: uint16, iv: Bytes)
    requires SessionCodec.Lawful(codec.suite) && |iv| == SessionCodec.BLOCK_SIZE
    requires 0 < |data| <= chunkSize
    ensures var request := ChunkRequest(crc, protocolVersion, chunkSize, index, data, messageId);
            Marshals(request) && Ascending(request.options, 0) &&
            var sealed := SessionStream.Seal(codec, SessionStream.Outgoing(request, request.options, iv));
            (protocolVersion > 0 ==> |sealed| == 36 + 16 * ((17 + chunkSize) / 16 + 1)) &&
            (|sealed| < 0x1_0000 <==> chunkSize <= if protocolVersion > 0 then 65470 else 65473)
  {
    ChunkRequestSize(crc, protocolVersion, chunkSize, index, data, messageId);
    var request := ChunkRequest(crc, protocolVersion, chunkSize, index, data, messageId);
    SessionCodec.EncryptedSize(codec, iv, Encode(request, request.options));
  }

  // ---------------------------------------------------------------- the device

  /** The value of the last query option that has `length` bytes. */
  function QueryOfLength(options: seq<CoapOption>, length: nat): Option<Bytes> {
    if options == [] then None
    else
      var last := options[|options| - 1];
      if last.number == OPTION_URI_QUERY && |last.value| == length then Some(last.value)
      else QueryOfLength(options[..|options| - 1], length)
  }

  /** The chunks a device holds after these requests: it keeps a payload whose checksum is right. */
  function Collect(crc: Checksum, packets: seq<Packet>): map<uint16, Bytes> {
    if packets == [] then map[]
    else
      var before, packet := Collect(crc, packets[..|packets| - 1]), packets[|packets| - 1];
      var checksum, index := QueryOfLength(packet.options, 4), QueryOfLength(packet.options, 2);
      if checksum.Some? && index.Some? && |checksum.value| == 4 && |index.value| == 2 &&
         Uint32(checksum.value) == crc(packet.payload)
      then before[Uint16(index.value) := packet.payload]
      else before
  }

  function ChunkUnder(chunks: map<uint16, Bytes>, i: nat): Bytes {
    if i in chunks then chunks[i] else []
  }

  /** The payloads with index below `k`, in index order. */
  function InOrder(chunks: map<uint16, Bytes>, k: nat): Bytes {
    Concat(seq(k, (i: nat) => ChunkUnder(chunks, i)))
  }

  lemma InOrderGrows(chunks: map<uint16, Bytes>, k: nat)
    ensures InOrder(chunks, 0) == []
    ensures InOrder(chunks, k + 1) == InOrder(chunks, k) + ChunkUnder(chunks, k)
  {
    var parts := seq(k, (i: nat) => ChunkUnder(chunks, i));
    ConcatAppend(parts, ChunkUnder(chunks, k));
    assert seq(k + 1, (i: nat) => ChunkUnder(chunks, i)) == parts + [ChunkUnder(chunks, k)];
  }

  /** The binary a device writes: its chunks in index order, cut to the size announced at the start. */
  function Reassemble(begin: Bytes, chunks: map<uint16, Bytes>): Bytes
    requires |begin| == 12
  {
    Cut(InOrder(chunks, 0x1_0000), Uint32(begin[3..7]))
  }

  function Cut(all: Bytes, size: nat): Bytes {
    if |all| <= size then all else all[..size]
  }

  lemma DeviceReadsChunk(crc: Checksum, packets: seq<Packet>, protocolVersion: byte, chunkSize: int, index: int,
                         data: Bytes, messageId: uint16)
    requires protocolVersion > 0 && 0 <= index
    ensures var payload := ChunkPayload(chunkSize, data);
            Collect(crc, packets + [ChunkRequest(crc, protocolVersion, chunkSize, index, data, messageId)])
            == Collect(crc, packets)[index % 0x1_0000 := payload]
  {
    var request := ChunkRequest(crc, protocolVersion, chunkSize, index, data, messageId);
    var options := request.options;
    assert (packets + [request])[..|packets|] == packets;
    Uint16RoundTrip(index % 0x1_0000);
    Uint32RoundTrip(crc(request.payload));
    assert options[..2][1] == options[1];
    assert QueryOfLength(options[..2], 4) == Some(PutUint32(crc(request.payload)));
    assert QueryOfLength(options, 2) == Some(PutUint16(index % 0x1_0000));
  }

  // ---------------------------------------------------------------- end to end

  /** One chunk request as it went out. */
  datatype Transmission = Transmission(index: int, data: Bytes, messageId: uint16, iv: Bytes)

  function Request(crc: Checksum, protocolVersion: byte, chunkSize: int, t: Transmission): Packet {
    ChunkRequest(crc, protocolVersion, chunkSize, t.index, t.data, t.messageId)
  }

  function Requests(crc: Checksum, protocolVersion: byte, chunkSize: int, sent: seq<Transmission>): (r: seq<Packet>)
    ensures |r| == |sent|
  {
    if sent == [] then []
    else Requests(crc, protocolVersion, chunkSize, sent[..|sent| - 1])
         + [Request(crc, protocolVersion, chunkSize, sent[|sent| - 1])]
  }

  /** Every transmission carries its piece of the file, and every piece was transmitted. */
  ghost predicate Covers(file: Bytes, chunkSize: int, sent: seq<Transmission>)
    requires chunkSize > 0
  {
    && (forall k :: 0 <= k < |sent| ==>
          0 <= sent[k].index < ChunkCount(|file|, chunkSize) &&
          sent[k].data == Piece(file, chunkSize, sent[k].index))
    && (forall i :: 0 <= i < ChunkCount(|file|, chunkSize) ==> Transmitted(sent, i))
  }

  ghost predicate Transmitted(sent: seq<Transmission>, index: int) {
    exists k :: 0 <= k < |sent| && sent[k].index == index
  }

  /** The device holds `payload` under the 16-bit index `i` because of one of these transmissions. */
  ghost predicate CameFrom(sent: seq<Transmission>, chunkSize: int, i: int, payload: Bytes) {
    exists k :: 0 <= k < |sent| && i == sent[k].index % 0x1_0000 && payload == ChunkPayload(chunkSize, sent[k].data)
  }

  /** What a device holds after `sent`: an entry for each index transmitted, and nothing made up. */
  ghost predicate Holds(chunks: map<uint16, Bytes>, chunkSize: int, sent: seq<Transmission>) {
    && (forall i :: i in chunks ==> CameFrom(sent, chunkSize, i, chunks[i]))
    && (forall k :: 0 <= k < |sent| ==> sent[k].index % 0x1_0000 in chunks)
  }

  lemma HoldsOneMore(before: map<uint16, Bytes>, chunkSize: int, sent: seq<Transmission>)
    requires sent != [] && Holds(before, chunkSize, sent[..|sent| - 1])
    ensures var last := sent[|sent| - 1];
            Holds(before[last.index % 0x1_0000 := ChunkPayload(chunkSize, last.data)], chunkSize, sent)
  {
    hide ChunkPayload;
    var n := |sent| - 1;
    var chunks := before[sent[n].index % 0x1_0000 := ChunkPayload(chunkSize, sent[n].data)];
    forall i | i in chunks ensures CameFrom(sent, chunkSize, i, chunks[i]) {
      if i == sent[n].index % 0x1_0000 {
        assert chunks[i] == ChunkPayload(chunkSize, sent[n].data);
      } else {
        var k :| 0 <= k < n && i == sent[..n][k].index % 0x1_0000 && before[i] == ChunkPayload(chunkSize, sent[..n][k].data);
        assert sent[..n][k] == sent[k];
      }
    }
    forall k | 0 <= k < |sent| ensures sent[k].index % 0x1_0000 in chunks {
      if k < n {
        assert sent[..n][k] == sent[k];
      }
    }
  }

  lemma {:induction false} CollectedChunks(crc: Checksum, protocolVersion: byte, chunkSize: int, sent: seq<Transmission>)
    requires protocolVersion > 0
    requires forall k :: 0 <= k < |sent| ==> 0 <= sent[k].index
    ensures Holds(Collect(crc, Requests(crc, protocolVersion, chunkSize, sent)), chunkSize, sent)
    decreases |sent|
  {
    if sent != [] {
      var n := |sent| - 1;
      CollectedChunks(crc, protocolVersion, chunkSize, sent[..n]);
      var earlier := Requests(crc, protocolVersion, chunkSize, sent[..n]);
      DeviceReadsChunk(crc, earlier, protocolVersion, chunkSize, sent[n].index, sent[n].data, sent[n].messageId);
      hide Holds, Collect, ChunkPayload;
      HoldsOneMore(Collect(crc, earlier), chunkSize, sent);
    }
  }

  /** The device has every piece of the file under its own index. */
  ghost predicate HasPieces(file: Bytes, chunkSize: int, chunks: map<uint16, Bytes>)
    requires chunkSize > 0
  {
    && (forall i :: i in chunks <==> 0 <= i < ChunkCount(|file|, chunkSize))
    && (forall i :: i in chunks ==> chunks[i] == ChunkPayload(chunkSize, Piece(file, chunkSize, i)))
  }

  /** The first chunks in order are the start of the file; only the last chunk brings padding. */
  lemma {:induction false} InOrderIsFile(file: Bytes, chunkSize: int, chunks: map<uint16, Bytes>, k: nat)
    requires chunkSize > 0 && HasPieces(file, chunkSize, chunks)
    requires k <= ChunkCount(|file|, chunkSize)
    ensures k * chunkSize >= Start(|file|, chunkSize, k)
    ensures InOrder(chunks, k)
         == file[..Start(|file|, chunkSize, k)] + Zeros(k * chunkSize - Start(|file|, chunkSize, k))
  {
    hide InOrder, Piece, ChunkPayload, Start, ChunkCount;
    if k == 0 {
      NothingYet(file, chunkSize);
      InOrderGrows(chunks, 0);
    } else {
      InOrderIsFile(file, chunkSize, chunks, k - 1);
      InOrderGrows(chunks, k - 1);
      assert k - 1 in chunks;
      NextPieceInOrder(file, chunkSize, k - 1);
    }
  }

  lemma NothingYet(file: Bytes, chunkSize: int)
    requires chunkSize > 0
    ensures 0 * chunkSize == Start(|file|, chunkSize, 0) == 0 && file[..0] + Zeros(0) == []
  {
  }

  lemma NextPieceInOrder(file: Bytes, chunkSize: int, i: nat)
    requires chunkSize > 0 && i < ChunkCount(|file|, chunkSize)
    ensures i * chunkSize == Start(|file|, chunkSize, i) && (i + 1) * chunkSize >= Start(|file|, chunkSize, i + 1)
    ensures file[..Start(|file|, chunkSize, i)] + Zeros(0) + ChunkPayload(chunkSize, Piece(file, chunkSize, i))
         == file[..Start(|file|, chunkSize, i + 1)] + Zeros((i + 1) * chunkSize - Start(|file|, chunkSize, i + 1))
  {
    StartInside(|file|, chunkSize, i);
    assert (i + 1) * chunkSize == i * chunkSize + chunkSize;
    var piece := Piece(file, chunkSize, i);
    var fill := (i + 1) * chunkSize - Start(|file|, chunkSize, i + 1);
    assert fill == chunkSize - |piece|;
    PayloadIsFilled(chunkSize, piece);
    assert file[..Start(|file|, chunkSize, i)] + piece == file[..Start(|file|, chunkSize, i + 1)];
  }

  lemma PayloadIsFilled(chunkSize: int, data: Bytes)
    requires |data| <= chunkSize
    ensures ChunkPayload(chunkSize, data) == data + Zeros(chunkSize - |data|)
  {
  }

  /** Beyond the last index nothing is added. */
  lemma {:induction false} InOrderEnds(chunks: map<uint16, Bytes>, n: nat, k: nat)
    requires n <= k && forall i :: i in chunks ==> i < n
    ensures InOrder(chunks, k) == InOrder(chunks, n)
  {
    hide InOrder;
    if n < k {
      InOrderEnds(chunks, n, k - 1);
      InOrderGrows(chunks, k - 1);
    }
  }

  lemma {:induction false} InOrderIsBounded(chunks: map<uint16, Bytes>, chunkSize: nat, k: nat)
    requires forall i :: i in chunks ==> |chunks[i]| <= chunkSize
    ensures |InOrder(chunks, k)| <= k * chunkSize
  {
    hide InOrder;
    InOrderGrows(chunks, 0);
    if k > 0 {
      InOrderIsBounded(chunks, chunkSize, k - 1);
      InOrderGrows(chunks, k - 1);
      assert k * chunkSize == (k - 1) * chunkSize + chunkSize;
    }
  }

  lemma AnnouncedSize(chunkSize: int, size: nat)
    ensures |UpdateBeginPayload(chunkSize, size)| == 12
    ensures Uint32(UpdateBeginPayload(chunkSize, size)[3..7]) == size % 0x1_0000_0000
  {
    var begin := UpdateBeginPayload(chunkSize, size);
    Uint32RoundTrip(size % 0x1_0000_0000);
    assert begin[3..7] == PutUint32(size % 0x1_0000_0000);
  }

  /** The announced size lets a device stop at the end of the binary. */
  predicate Recoverable(length: nat, chunkSize: int, size: nat)
    requires chunkSize > 0
  {
    var announced := size % 0x1_0000_0000;
    && ChunkCount(length, chunkSize) <= 0x1_0000
    && (announced == length || (announced > length && length % chunkSize == 0))
  }

  /**
   * Once every piece has been transmitted, in any order and any number of times, and
   * whatever size was announced, the device has the uploaded binary exactly when
   * there are at most 65536 pieces and the announced size is right, or is too large
   * and there is no padding to cut off.
   */
  lemma DeviceRecoversExactly(crc: Checksum, protocolVersion: byte, file: Bytes, chunkSize: int, size: nat, sent: seq<Transmission>)
    requires protocolVersion > 0 && 1 <= chunkSize <= 65470 && file != []
    requires Covers(file, chunkSize, sent)
    ensures var begin := UpdateBeginPayload(chunkSize, size);
            |begin| == 12 &&
            (Reassemble(begin, Collect(crc, Requests(crc, protocolVersion, chunkSize, sent))) == file
             <==> Recoverable(|file|, chunkSize, size))
  {
    hide UpdateBeginPayload, Collect, Requests, Holds, Covers, ChunkCount, InOrder, Uint32, PutUint32, Cut;
    AnnouncedSize(chunkSize, size);
    CoveredIndexes(file, chunkSize, sent);
    CollectedChunks(crc, protocolVersion, chunkSize, sent);
    var chunks := Collect(crc, Requests(crc, protocolVersion, chunkSize, sent));
    if ChunkCount(|file|, chunkSize) <= 0x1_0000 {
      FewPiecesGiveFile(file, chunkSize, sent, chunks);
      CutExactly(InOrder(chunks, 0x1_0000), size % 0x1_0000_0000, file);
      WholePieces(|file|, chunkSize);
    } else {
      ManyPiecesFallShort(file, chunkSize, sent, chunks);
      CutIsNoLonger(InOrder(chunks, 0x1_0000), size % 0x1_0000_0000);
    }
  }

  /**
   * When the size announced is the binary's own, the device has the binary exactly
   * when there are at most 65536 pieces; the size never overflows then.
   */
  lemma DeviceRecoversBinary(crc: Checksum, protocolVersion: byte, file: Bytes, chunkSize: int, sent: seq<Transmission>)
    requires protocolVersion > 0 && 1 <= chunkSize <= 65470 && file != []
    requires Covers(file, chunkSize, sent)
    ensures var begin := UpdateBeginPayload(chunkSize, |file|);
            |begin| == 12 &&
            (Reassemble(begin, Collect(crc, Requests(crc, protocolVersion, chunkSize, sent))) == file
             <==> ChunkCount(|file|, chunkSize) <= 0x1_0000)
    ensures ChunkCount(|file|, chunkSize) <= 0x1_0000 ==> |file| < 0x1_0000_0000
  {
    hide UpdateBeginPayload, Collect, Requests, Covers, ChunkCount, Reassemble;
    DeviceRecoversExactly(crc, protocolVersion, file, chunkSize, |file|, sent);
    if ChunkCount(|file|, chunkSize) <= 0x1_0000 {
      FewPiecesAreSmall(|file|, chunkSize);
    }
  }

  lemma FewPiecesAreSmall(length: nat, chunkSize: int)
    requires 1 <= chunkSize <= 65470 && ChunkCount(length, chunkSize) <= 0x1_0000
    ensures length < 0x1_0000_0000
  {
    CountRoundsUp(length, chunkSize);
    EarlierMultiple(ChunkCount(length, chunkSize), 0x1_0000, chunkSize);
  }

  lemma CutExactly(all: Bytes, size: nat, file: Bytes)
    requires |file| <= |all| && all[..|file|] == file
    ensures Cut(all, size) == file <==> size == |file| || (size > |file| && |all| == |file|)
  {
  }

  /** There is no padding exactly when the last piece is full. */
  lemma WholePieces(length: nat, chunkSize: int)
    requires chunkSize > 0 && length > 0
    ensures ChunkCount(length, chunkSize) * chunkSize == length <==> length % chunkSize == 0
  {
    CountRoundsUp(length, chunkSize);
    var n := ChunkCount(length, chunkSize);
    hide ChunkCount;
    if length % chunkSize == 0 {
      MultipleMagnitude(n - length / chunkSize, chunkSize);
      assert (n - length / chunkSize) * chunkSize == n * chunkSize - length;
    }
    if n * chunkSize == length {
      RemainderOfSum(n, 0, chunkSize);
    }
  }

  lemma CutIsNoLonger(all: Bytes, size: nat)
    ensures |Cut(all, size)| <= |all|
  {
  }

  lemma CoveredIndexes(file: Bytes, chunkSize: int, sent: seq<Transmission>)
    requires chunkSize > 0 && Covers(file, chunkSize, sent)
    ensures forall k :: 0 <= k < |sent| ==> 0 <= sent[k].index
  {
  }

  lemma CoveringGivesPieces(file: Bytes, chunkSize: int, sent: seq<Transmission>, chunks: map<uint16, Bytes>)
    requires chunkSize > 0 && Covers(file, chunkSize, sent) && Holds(chunks, chunkSize, sent)
    requires ChunkCount(|file|, chunkSize) <= 0x1_0000
    ensures HasPieces(file, chunkSize, chunks)
  {
    hide ChunkPayload, Piece, ChunkCount;
    var n := ChunkCount(|file|, chunkSize);
    forall i | i in chunks
      ensures 0 <= i < n && chunks[i] == ChunkPayload(chunkSize, Piece(file, chunkSize, i))
    {
      assert CameFrom(sent, chunkSize, i, chunks[i]);
    }
    forall i | 0 <= i < n ensures i in chunks {
      assert Transmitted(sent, i);
      var k :| 0 <= k < |sent| && sent[k].index == i;
      assert sent[k].index % 0x1_0000 == i;
    }
  }

  lemma FewPiecesGiveFile(file: Bytes, chunkSize: int, sent: seq<Transmission>, chunks: map<uint16, Bytes>)
    requires chunkSize > 0 && Covers(file, chunkSize, sent) && Holds(chunks, chunkSize, sent)
    requires ChunkCount(|file|, chunkSize) <= 0x1_0000
    ensures var all := InOrder(chunks, 0x1_0000);
            |all| == ChunkCount(|file|, chunkSize) * chunkSize >= |file| && all[..|file|] == file
  {
    var n := ChunkCount(|file|, chunkSize);
    CoveringGivesPieces(file, chunkSize, sent, chunks);
    hide InOrder, Covers, Holds, Start, Zeros, ChunkCount;
    InOrderIsFile(file, chunkSize, chunks, n);
    InOrderEnds(chunks, n, 0x1_0000);
    AllOfFile(file, chunkSize, InOrder(chunks, n));
  }

  lemma AllOfFile(file: Bytes, chunkSize: int, all: Bytes)
    requires chunkSize > 0
    requires var n := ChunkCount(|file|, chunkSize);
             n * chunkSize >= Start(|file|, chunkSize, n) &&
             all == file[..Start(|file|, chunkSize, n)] + Zeros(n * chunkSize - Start(|file|, chunkSize, n))
    ensures |all| == ChunkCount(|file|, chunkSize) * chunkSize >= |file| && all[..|file|] == file
  {
    CountRoundsUp(|file|, chunkSize);
  }

  lemma ManyPiecesFallShort(file: Bytes, chunkSize: int, sent: seq<Transmission>, chunks: map<uint16, Bytes>)
    requires chunkSize > 0 && Covers(file, chunkSize, sent) && Holds(chunks, chunkSize, sent)
    requires ChunkCount(|file|, chunkSize) > 0x1_0000
    ensures |InOrder(chunks, 0x1_0000)| < |file|
  {
    hide InOrder;
    forall i | i in chunks ensures |chunks[i]| <= chunkSize {
      assert CameFrom(sent, chunkSize, i, chunks[i]);
      var k :| 0 <= k < |sent| && i == sent[k].index % 0x1_0000 && chunks[i] == ChunkPayload(chunkSize, sent[k].data);
      StartGrows(|file|, chunkSize, sent[k].index);
    }
    InOrderIsBounded(chunks, chunkSize, 0x1_0000);
    CountRoundsUp(|file|, chunkSize);
    EarlierMultiple(0x1_0000, ChunkCount(|file|, chunkSize) - 1, chunkSize);
  }

  // ---------------------------------------------------------------- over the wire

  function Outgoing(crc: Checksum, protocolVersion: byte, chunkSize: int, t: Transmission): SessionStream.Outgoing {
    var request := Request(crc, protocolVersion, chunkSize, t);
    SessionStream.Outgoing(request, request.options, t.iv)
  }

  function AllOutgoing(crc: Checksum, protocolVersion: byte, chunkSize: int, sent: seq<Transmission>)
    : (outgoing: seq<SessionStream.Outgoing>)
    ensures |outgoing| == |sent|
  {
    seq(|sent|, (k: nat) requires k < |sent| => Outgoing(crc, protocolVersion, chunkSize, sent[k]))
  }

  lemma ChunkIsSendable(codec: SessionCodec.Codec, crc: Checksum, protocolVersion: byte, chunkSize: int, t: Transmission)
    requires SessionCodec.Lawful(codec.suite) && protocolVersion > 0
    requires 0 < |t.data| <= chunkSize <= 65470 && |t.iv| == SessionCodec.BLOCK_SIZE
    ensures SessionStream.Sendable(codec, Outgoing(crc, protocolVersion, chunkSize, t))
    ensures SessionStream.Delivered(Outgoing(crc, protocolVersion, chunkSize, t)) == Request(crc, protocolVersion, chunkSize, t)
  {
    hide SessionStream.Seal;
    FullChunkFits(codec, crc, protocolVersion, chunkSize, t.index, t.data, t.messageId, t.iv);
    ChunkOptionsAreSorted(crc(ChunkPayload(chunkSize, t.data)), t.index, protocolVersion);
  }

  lemma {:induction false} DeliveredAreRequests(crc: Checksum, protocolVersion: byte, chunkSize: int, sent: seq<Transmission>)
    ensures SessionStream.AllDelivered(AllOutgoing(crc, protocolVersion, chunkSize, sent))
         == Requests(crc, protocolVersion, chunkSize, sent)
  {
    hide Request;
    if sent != [] {
      var n := |sent| - 1;
      var outgoing := AllOutgoing(crc, protocolVersion, chunkSize, sent);
      DeliveredAreRequests(crc, protocolVersion, chunkSize, sent[..n]);
      assert outgoing == AllOutgoing(crc, protocolVersion, chunkSize, sent[..n]) + [outgoing[n]];
      DeliveredAppends(AllOutgoing(crc, protocolVersion, chunkSize, sent[..n]), outgoing[n]);
      VersionIsSet(crc, protocolVersion, chunkSize, sent[n]);
    }
  }

  lemma VersionIsSet(crc: Checksum, protocolVersion: byte, chunkSize: int, t: Transmission)
    ensures SessionStream.Delivered(Outgoing(crc, protocolVersion, chunkSize, t)) == Request(crc, protocolVersion, chunkSize, t)
  {
  }

  lemma {:induction false} DeliveredAppends(outgoing: seq<SessionStream.Outgoing>, last: SessionStream.Outgoing)
    ensures SessionStream.AllDelivered(outgoing + [last])
         == SessionStream.AllDelivered(outgoing) + [SessionStream.Delivered(last)]
    decreases |outgoing|
  {
    if outgoing == [] {
      assert outgoing + [last] == [last] && [last][1..] == [];
      assert SessionStream.AllDelivered([]) == [];
    } else {
      assert (outgoing + [last])[1..] == outgoing[1..] + [last];
      DeliveredAppends(outgoing[1..], last);
    }
  }

  /**
   * From bytes to bytes: a device that decrypts and parses the stream of chunk
   * requests and puts the chunks together has the uploaded binary, under the same
   * condition.
   */
  lemma StreamCarriesBinary(codec: SessionCodec.Codec, crc: Checksum, protocolVersion: byte, file: Bytes, chunkSize: int,
                            size: nat, sent: seq<Transmission>)
    requires SessionCodec.Lawful(codec.suite) && protocolVersion > 0
    requires 1 <= chunkSize <= 65470 && file != []
    requires Covers(file, chunkSize, sent)
    requires forall k :: 0 <= k < |sent| ==> |sent[k].iv| == SessionCodec.BLOCK_SIZE
    ensures var outgoing := AllOutgoing(crc, protocolVersion, chunkSize, sent);
            SessionStream.AllSendable(codec, outgoing) && |UpdateBeginPayload(chunkSize, size)| == 12 &&
            var (packets, _, left) := SessionStream.Receive(codec, SessionStream.Wire(codec, outgoing));
            left == [] &&
            (Reassemble(UpdateBeginPayload(chunkSize, size), Collect(crc, packets)) == file
             <==> Recoverable(|file|, chunkSize, size))
  {
    hide UpdateBeginPayload, Collect, Reassemble, Recoverable, SessionStream.Sendable, Outgoing;
    var outgoing := AllOutgoing(crc, protocolVersion, chunkSize, sent);
    DeviceRecoversExactly(crc, protocolVersion, file, chunkSize, size, sent);
    forall k | 0 <= k < |sent| ensures SessionStream.Sendable(codec, outgoing[k]) {
      StartInside(|file|, chunkSize, sent[k].index);
      ChunkIsSendable(codec, crc, protocolVersion, chunkSize, sent[k]);
    }
    SessionStream.StreamInversion(codec, outgoing);
    DeliveredAreRequests(crc, protocolVersion, chunkSize, sent);
  }

  // ---------------------------------------------------------------- jobs and devices

  /** The transmissions are the accepted chunks of one job and nothing else, in any order. */
  ghost predicate AreDeliveriesOf(sent: seq<Transmission>, delivered: seq<FlashInterleaving.Delivery>, jobId: string) {
    && (forall k :: 0 <= k < |sent| ==>
          exists d :: 0 <= d < |delivered| && delivered[d] == FlashInterleaving.Delivery(jobId, sent[k].index, sent[k].data))
    && (forall d :: 0 <= d < |delivered| && delivered[d].jobId == jobId ==> Transmitted(sent, delivered[d].index))
  }

  /**
   * However the job operations interleave: when a job is stored as completed, the
   * chunk requests accepted for it carry the binary it was cut from to the device,
   * byte for byte, exactly when the size in its record, which is what the device was
   * told, lets the device find the end of that binary.
   */
  lemma CompletedJobIsOnDevice(hash: Hash, events: seq<FlashInterleaving.Event>, jobId: string, codec: SessionCodec.Codec,
                               crc: Checksum, protocolVersion: byte, sent: seq<Transmission>)
    requires CollisionFree(hash) && FlashInterleaving.NoDirectMarks(events)
    requires jobId in FlashInterleaving.Execute(hash, events).jobs
    requires var job := FlashInterleaving.Execute(hash, events).jobs[jobId];
             job.status == FlashJobs.Completed && 1 <= job.chunkSize <= 65470
    requires AreDeliveriesOf(sent, FlashInterleaving.Execute(hash, events).ledger.delivered, jobId)
    requires SessionCodec.Lawful(codec.suite) && protocolVersion > 0
    requires forall k :: 0 <= k < |sent| ==> |sent[k].iv| == SessionCodec.BLOCK_SIZE
    ensures var s := FlashInterleaving.Execute(hash, events);
            var chunkSize, size := s.jobs[jobId].chunkSize, s.jobs[jobId].size;
            jobId in s.ledger.sources &&
            var image := s.ledger.sources[jobId].image;
            var outgoing := AllOutgoing(crc, protocolVersion, chunkSize, sent);
            SessionStream.AllSendable(codec, outgoing) && |UpdateBeginPayload(chunkSize, size)| == 12 &&
            (Reassemble(UpdateBeginPayload(chunkSize, size),
                        Collect(crc, SessionStream.Receive(codec, SessionStream.Wire(codec, outgoing)).0)) == image
             <==> Recoverable(|image|, chunkSize, size))
  {
    hide FlashInterleaving.Execute, UpdateBeginPayload, Collect, Reassemble, Recoverable, Piece, ChunkCount;
    var s := FlashInterleaving.Execute(hash, events);
    FlashInterleaving.MarkedMeansAccepted(hash, events, jobId);
    var image, chunkSize := s.ledger.sources[jobId].image, s.jobs[jobId].chunkSize;
    CountRoundsUp(|image|, chunkSize);
    assert Covers(image, chunkSize, sent) by {
      forall i | 0 <= i < ChunkCount(|image|, chunkSize) ensures Transmitted(sent, i) {
        assert FlashInterleaving.WasDelivered(s.ledger.delivered, jobId, i);
      }
    }
    StreamCarriesBinary(codec, crc, protocolVersion, image, chunkSize, s.jobs[jobId].size, sent);
  }
}
