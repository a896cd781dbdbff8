/** Cutting a firmware binary into chunks and reading them back: internal/firmware/ota.go. */
module ChunkManifest {
  import opened Basics

  const DEFAULT_CHUNK_SIZE := 512

  datatype Chunk = Chunk(index: int, offset: int, size: int, sha256: string, transferred: bool)

  datatype Error = NotFound | EndOfFile | ChecksumMismatch

  /** The hexadecimal SHA-256 of a byte string. */
  type Hash = Bytes -> string

  /** Different contents have different digests, and no digest is empty. */
  ghost predicate CollisionFree(hash: Hash) {
    && (forall a, b :: hash(a) == hash(b) ==> a == b)
    && (forall a :: hash(a) != "")
  }

  function EffectiveSize(chunkSize: int): (size: int)
    ensures size > 0
  {
    if chunkSize <= 0 then DEFAULT_CHUNK_SIZE else chunkSize
  }

  /** Where chunk `i` starts; the end of the file for every chunk past the last. */
  function Start(length: nat, size: int, i: nat): (start: nat)
    requires size > 0
    ensures start <= length
  {
    Min(i * size, length)
  }

  function Piece(file: Bytes, size: int, i: nat): (piece: Bytes)
    requires size > 0
    ensures |piece| == Start(|file|, size, i + 1) - Start(|file|, size, i)
  {
    StartGrows(|file|, size, i);
    file[Start(|file|, size, i)..Start(|file|, size, i + 1)]
  }

  function ChunkCount(length: nat, size: int): nat
    requires size > 0
  {
    (length + size - 1) / size
  }

  function ChunkOf(hash: Hash, file: Bytes, size: int, i: nat): Chunk
    requires size > 0
  {
    var piece := Piece(file, size, i);
    Chunk(i, i * size, |piece|, hash(piece), false)
  }

  /** The manifest in closed form. */
  function Manifest(hash: Hash, file: Bytes, chunkSize: int): (chunks: seq<Chunk>)
    ensures |chunks| == ChunkCount(|file|, EffectiveSize(chunkSize))
  {
    var size := EffectiveSize(chunkSize);
    seq(ChunkCount(|file|, size),
        (i: nat) => ChunkOf(hash, file, size, i))
  }

  /** readChunkData on a file with the given contents. */
  function ReadChunk(hash: Hash, file: Bytes, chunk: Chunk): Result<Bytes, Error> {
    if chunk.size <= 0 || chunk.offset < 0 then Err(NotFound)
    else if chunk.offset + chunk.size > |file| then Err(EndOfFile)
    else
      var data := file[chunk.offset..chunk.offset + chunk.size];
      if chunk.sha256 != "" && chunk.sha256 != hash(data) then Err(ChecksumMismatch) else Ok(data)
  }

  lemma StartGrows(length: nat, size: int, i: nat)
    requires size > 0
    ensures Start(length, size, i) <= Start(length, size, i + 1) <= Start(length, size, i) + size
  {
    assert (i + 1) * size == i * size + size;
  }

  /** The count is the length divided by the size, rounded up. */
  lemma CountRoundsUp(length: nat, size: int)
    requires size > 0
    ensures var n := ChunkCount(length, size);
            length <= n * size && (n > 0 ==> (n - 1) * size < length) && (n == 0 <==> length == 0)
  {
    var total := length + size - 1;
    var n := ChunkCount(length, size);
    assert total == n * size + total % size;
    assert (n - 1) * size == n * size - size;
  }

  lemma EarlierMultiple(i: int, n: int, size: int)
    requires size > 0 && i <= n
    ensures i * size <= n * size
  {
    assert n * size == i * size + (n - i) * size;
  }

  /** Inside the manifest no start is cut off by the end of the file. */
  lemma StartInside(length: nat, size: int, i: nat)
    requires size > 0 && i < ChunkCount(length, size)
    ensures Start(length, size, i) == i * size < length
    ensures Start(length, size, i) < Start(length, size, i + 1) <= Start(length, size, i) + size
    ensures i + 1 < ChunkCount(length, size) ==> Start(length, size, i + 1) == Start(length, size, i) + size
    ensures i + 1 == ChunkCount(length, size) ==> Start(length, size, i + 1) == length
  {
    var n := ChunkCount(length, size);
    CountRoundsUp(length, size);
    EarlierMultiple(i, n - 1, size);
    assert (i + 1) * size == i * size + size;
    if i + 1 < n {
      EarlierMultiple(i + 1, n - 1, size);
    }
  }

  lemma ChunkIsPiece(hash: Hash, file: Bytes, chunkSize: int, i: nat)
    requires i < |Manifest(hash, file, chunkSize)|
    ensures var chunk, size := Manifest(hash, file, chunkSize)[i], EffectiveSize(chunkSize);
            && chunk.index == i && !chunk.transferred
            && chunk.offset == Start(|file|, size, i)
            && 1 <= chunk.size <= size
            && chunk.offset + chunk.size == Start(|file|, size, i + 1)
            && chunk.sha256 == hash(Piece(file, size, i)) && chunk.size == |Piece(file, size, i)|
  {
    var chunks, size := Manifest(hash, file, chunkSize), EffectiveSize(chunkSize);
    StartInside(|file|, size, i);
  }

  /**
   * The chunks partition the file: they are contiguous from its start to its end,
   * indexed by position, all full but the last, which is not empty.
   */
  lemma ManifestPartitions(hash: Hash, file: Bytes, chunkSize: int)
    requires file != []
    ensures var chunks, size := Manifest(hash, file, chunkSize), EffectiveSize(chunkSize);
            && (|chunks| - 1) * size < |file| <= |chunks| * size
            && chunks[0].offset == 0
            && (forall i :: 0 <= i < |chunks| ==> chunks[i].index == i && !chunks[i].transferred)
            && (forall i :: 0 <= i < |chunks| - 1 ==>
                  chunks[i].size == size && chunks[i].offset + chunks[i].size == chunks[i + 1].offset)
            && (var last := chunks[|chunks| - 1];
                1 <= last.size <= size && last.offset + last.size == |file|)
  {
    var chunks, size := Manifest(hash, file, chunkSize), EffectiveSize(chunkSize);
    CountRoundsUp(|file|, size);
    hide Manifest;
    forall i | 0 <= i < |chunks|
      ensures chunks[i].index == i && !chunks[i].transferred
      ensures chunks[i].offset == Start(|file|, size, i)
      ensures chunks[i].offset + chunks[i].size == Start(|file|, size, i + 1)
      ensures 1 <= chunks[i].size <= size
      ensures if i + 1 == |chunks| then Start(|file|, size, i + 1) == |file|
              else Start(|file|, size, i + 1) == Start(|file|, size, i) + size
    {
      ChunkIsPiece(hash, file, chunkSize, i);
      StartInside(|file|, size, i);
    }
  }

  lemma {:induction false} PiecesConcatenate(file: Bytes, size: int, k: nat)
    requires size > 0
    ensures Concat(seq(k, (i: nat) => Piece(file, size, i))) == file[..Start(|file|, size, k)]
  {
    var pieces := seq(k, (i: nat) => Piece(file, size, i));
    if k > 0 {
      PiecesConcatenate(file, size, k - 1);
      StartGrows(|file|, size, k - 1);
      assert pieces == seq(k - 1, (i: nat) => Piece(file, size, i)) + [Piece(file, size, k - 1)];
      ConcatAppend(seq(k - 1, (i: nat) => Piece(file, size, i)), Piece(file, size, k - 1));
    }
  }

  /** Reading every chunk of the unchanged file succeeds, and the data in order is the file. */
  lemma ReadingReassembles(hash: Hash, file: Bytes, chunkSize: int)
    requires file != []
    ensures var chunks, size := Manifest(hash, file, chunkSize), EffectiveSize(chunkSize);
            && (forall i :: 0 <= i < |chunks| ==> ReadChunk(hash, file, chunks[i]) == Ok(Piece(file, size, i)))
            && Concat(seq(|chunks|, (i: nat) => Piece(file, size, i))) == file
  {
    var chunks, size := Manifest(hash, file, chunkSize), EffectiveSize(chunkSize);
    ManifestPartitions(hash, file, chunkSize);
    CountRoundsUp(|file|, size);
    PiecesConcatenate(file, size, |chunks|);
    assert file[..|file|] == file;
    forall i | 0 <= i < |chunks| ensures ReadChunk(hash, file, chunks[i]) == Ok(Piece(file, size, i)) {
      ChunkIsPiece(hash, file, chunkSize, i);
    }
  }

  /**
   * If the file is replaced after the manifest was made, a chunk that can still be
   * read has the bytes of the original file.
   */
  lemma ReplacedFileCannotLeak(hash: Hash, file: Bytes, chunkSize: int, other: Bytes, i: nat)
    requires CollisionFree(hash) && i < |Manifest(hash, file, chunkSize)|
    requires ReadChunk(hash, other, Manifest(hash, file, chunkSize)[i]).Ok?
    ensures ReadChunk(hash, other, Manifest(hash, file, chunkSize)[i]) == Ok(Piece(file, EffectiveSize(chunkSize), i))
  {
    ChunkIsPiece(hash, file, chunkSize, i);
  }

  method BuildChunkManifest(hash: Hash, file: Bytes, serviceChunkSize: int)
    returns (r: Result<seq<Chunk>, Error>)
    ensures file == [] ==> r == Err(NotFound)
    ensures file != [] ==> r == Ok(Manifest(hash, file, serviceChunkSize))
  {
    var chunkSize := serviceChunkSize;
    if chunkSize <= 0 {
      chunkSize := DEFAULT_CHUNK_SIZE;
    }
    assert chunkSize == EffectiveSize(serviceChunkSize);
    hide *;
    ghost var goal := Manifest(hash, file, serviceChunkSize);
    ManifestStarts(hash, file, serviceChunkSize);

    var chunks: seq<Chunk> := [];
    var offset := 0;
    while true
      invariant 0 <= offset <= |file| && |chunks| <= |goal|
      invariant offset == Start(|file|, chunkSize, |chunks|)
      invariant forall i :: 0 <= i < |chunks| ==> chunks[i] == goal[i]
      decreases |file| - offset
    {
      // io.ReadFull fills the buffer or stops at the end of the file
      var read := if chunkSize <= |file| - offset then chunkSize else |file| - offset;
      NextChunk(hash, file, serviceChunkSize, |chunks|, read);
      if read > 0 {
        var data := file[offset..offset + read];
        chunks := chunks + [Chunk(|chunks|, offset, read, hash(data), false)];
        offset := offset + read;
      }
      if read < chunkSize {
        break;
      }
    }
    assert chunks == goal;
    if |chunks| == 0 {
      return Err(NotFound);
    }
    return Ok(chunks);
  }

  lemma ManifestStarts(hash: Hash, file: Bytes, chunkSize: int)
    ensures Start(|file|, EffectiveSize(chunkSize), 0) == 0
    ensures |Manifest(hash, file, chunkSize)| == 0 <==> file == []
  {
    CountRoundsUp(|file|, EffectiveSize(chunkSize));
  }

  /** What one full or partial read after `k` chunks has in the buffer. */
  lemma NextChunk(hash: Hash, file: Bytes, chunkSize: int, k: nat, read: nat)
    requires k <= |Manifest(hash, file, chunkSize)|
    requires var left := |file| - Start(|file|, EffectiveSize(chunkSize), k);
             read == if EffectiveSize(chunkSize) <= left then EffectiveSize(chunkSize) else left
    ensures var goal, size := Manifest(hash, file, chunkSize), EffectiveSize(chunkSize);
            var offset := Start(|file|, size, k);
            if read == 0 then k == |goal|
            else k < |goal| && Start(|file|, size, k + 1) == offset + read && offset + read <= |file|
                 && goal[k] == Chunk(k, offset, read, hash(file[offset..offset + read]), false)
                 && (read < size ==> k + 1 == |goal|)
  {
    var goal, size := Manifest(hash, file, chunkSize), EffectiveSize(chunkSize);
    EndIsReached(|file|, size, k);
    if k < |goal| {
      ChunkIsPiece(hash, file, chunkSize, k);
      StartInside(|file|, size, k);
    }
  }

  lemma EndIsReached(length: nat, size: int, k: nat)
    requires size > 0 && k <= ChunkCount(length, size)
    ensures Start(length, size, k) == length <==> k == ChunkCount(length, size)
  {
    CountRoundsUp(length, size);
    if k < ChunkCount(length, size) {
      StartInside(length, size, k);
    }
  }

  method ReadChunkData(hash: Hash, file: Bytes, chunk: Chunk) returns (r: Result<Bytes, Error>)
    ensures r == ReadChunk(hash, file, chunk)
    ensures r.Ok? ==> |r.value| == chunk.size && (chunk.sha256 == "" || hash(r.value) == chunk.sha256)
  {
    if chunk.size <= 0 || chunk.offset < 0 {
      return Err(NotFound);
    }
    if chunk.offset + chunk.size > |file| {
      return Err(EndOfFile);
    }
    var data := file[chunk.offset..chunk.offset + chunk.size];
    if chunk.sha256 != "" && chunk.sha256 != hash(data) {
      return Err(ChecksumMismatch);
    }
    return Ok(data);
  }
}
