/** Flash-job records and what one step does to a record: internal/firmware/ota.go. */
module FlashJobs {
  import opened Basics
  import opened ChunkManifest

  datatype Status = Queued | Running | Completed | Failed

  /** A stored job. Of the timestamps only UpdatedAt is kept: it alone is ever read by the job code. */
  datatype Job = Job(
    id: string,
    deviceId: string,
    firmwareId: string,
    binaryPath: string,
    size: nat,
    chunkSize: int,
    chunkCount: int,
    transferred: int,
    chunks: seq<Chunk>,
    status: Status,
    progress: int,
    error: string,
    updatedAt: int)

  const MAX_MISSED_CHUNKS := 10

  // ---------------------------------------------------------------- steps

  function ProgressFor(chunkCount: int, transferred: int): int {
    if chunkCount <= 0 then 0
    else
      var progress := transferred * 100 / chunkCount;
      if progress < 0 then 0 else if progress > 100 then 100 else progress
  }

  function MarkRunning(job: Job, now: int): Job {
    job.(status := Running, error := "", progress := ProgressFor(job.chunkCount, job.transferred), updatedAt := now)
  }

  function Fail(job: Job, message: string, now: int): Job {
    job.(status := Failed, error := message, updatedAt := now)
  }

  function MarkAll(chunks: seq<Chunk>): (marked: seq<Chunk>)
    ensures |marked| == |chunks|
  {
    seq(|chunks|, i requires 0 <= i < |chunks| => chunks[i].(transferred := true))
  }

  function Complete(job: Job, now: int): Job {
    job.(chunks := MarkAll(job.chunks), transferred := job.chunkCount, status := Completed,
         progress := 100, error := "", updatedAt := now)
  }

  function WithChunkMarked(job: Job, i: nat): Job
    requires i < |job.chunks|
  {
    var begun := if job.status == Queued then job.(status := Running) else job;
    if job.chunks[i].transferred then begun
    else begun.(chunks := job.chunks[i := job.chunks[i].(transferred := true)], transferred := job.transferred + 1)
  }

  /** MarkFlashChunkTransferred on a loaded record. */
  function MarkTransferred(job: Job, i: nat, now: int): Job
    requires i < |job.chunks|
  {
    var marked := WithChunkMarked(job, i);
    if marked.transferred >= marked.chunkCount && marked.chunkCount > 0 then Complete(marked, now)
    else marked.(progress := ProgressFor(marked.chunkCount, marked.transferred), updatedAt := now)
  }

  // ---------------------------------------------------------------- invariant

  function CountMarked(chunks: seq<Chunk>): (n: nat)
    ensures n <= |chunks|
  {
    if chunks == [] then 0
    else CountMarked(chunks[..|chunks| - 1]) + if chunks[|chunks| - 1].transferred then 1 else 0
  }

  ghost predicate IndexIsPosition(chunks: seq<Chunk>) {
    forall i :: 0 <= i < |chunks| ==> chunks[i].index == i
  }

  ghost predicate AllMarked(chunks: seq<Chunk>) {
    forall i :: 0 <= i < |chunks| ==> chunks[i].transferred
  }

  /** What holds of every stored record. */
  ghost predicate Sound(job: Job) {
    && 0 < job.chunkCount == |job.chunks|
    && IndexIsPosition(job.chunks)
    && job.transferred == CountMarked(job.chunks)
    && job.progress == 100 * job.transferred / job.chunkCount
    && (job.status == Completed ==> AllMarked(job.chunks))
  }

  ghost predicate SameManifest(a: seq<Chunk>, b: seq<Chunk>) {
    |a| == |b| && forall i :: 0 <= i < |a| ==> a[i].(transferred := b[i].transferred) == b[i]
  }

  /** Two records of one flash: the same firmware for the same device, cut into the same chunks. */
  ghost predicate SameFlash(a: Job, b: Job) {
    && a.id == b.id && a.deviceId == b.deviceId && a.firmwareId == b.firmwareId && a.binaryPath == b.binaryPath
    && a.size == b.size && a.chunkSize == b.chunkSize && a.chunkCount == b.chunkCount
    && SameManifest(a.chunks, b.chunks)
  }

  /** `b` is a later form of the job `a`: same flash, and no chunk mark is lost. */
  ghost predicate Advances(a: Job, b: Job) {
    SameFlash(a, b) && forall i :: 0 <= i < |a.chunks| && a.chunks[i].transferred ==> b.chunks[i].transferred
  }

  lemma {:induction false} MarkingOneCounts(chunks: seq<Chunk>, i: nat)
    requires i < |chunks| && !chunks[i].transferred
    ensures CountMarked(chunks[i := chunks[i].(transferred := true)]) == CountMarked(chunks) + 1
  {
    var marked := chunks[i := chunks[i].(transferred := true)];
    var n := |chunks| - 1;
    if i < n {
      MarkingOneCounts(chunks[..n], i);
      assert marked[..n] == chunks[..n][i := chunks[i].(transferred := true)];
    } else {
      assert marked[..n] == chunks[..n];
    }
  }

  lemma {:induction false} CountIsFull(chunks: seq<Chunk>)
    ensures CountMarked(chunks) == |chunks| <==> AllMarked(chunks)
  {
    if chunks != [] {
      CountIsFull(chunks[..|chunks| - 1]);
    }
  }

  lemma {:induction false} CountGrows(a: seq<Chunk>, b: seq<Chunk>)
    requires |a| == |b| && forall i :: 0 <= i < |a| && a[i].transferred ==> b[i].transferred
    ensures CountMarked(a) <= CountMarked(b)
  {
    if a != [] {
      CountGrows(a[..|a| - 1], b[..|b| - 1]);
    }
  }

  lemma ProgressIsPercentage(chunkCount: int, transferred: int)
    requires 0 <= transferred <= chunkCount && chunkCount > 0
    ensures ProgressFor(chunkCount, transferred) == 100 * transferred / chunkCount
    ensures 0 <= 100 * transferred / chunkCount <= 100
    ensures transferred == chunkCount ==> 100 * transferred / chunkCount == 100
  {
    if transferred == chunkCount {
      RemainderOfSum(100, 0, chunkCount);
    } else {
      DivisionGrows(100 * transferred, 100 * chunkCount, chunkCount);
      RemainderOfSum(100, 0, chunkCount);
      DivisionGrows(0, 100 * transferred, chunkCount);
    }
  }

  lemma DivisionGrows(a: int, b: int, d: int)
    requires d > 0 && a <= b
    ensures a / d <= b / d
  {
    MultipleMagnitude(a / d - b / d, d);
    assert (a / d - b / d) * d == a - a % d - (b - b % d);
  }

  /** A later form of a sound job has transferred at least as much. */
  lemma AdvancingNeverLosesProgress(a: Job, b: Job)
    requires Sound(a) && Sound(b) && Advances(a, b)
    ensures a.transferred <= b.transferred && a.progress <= b.progress
  {
    CountGrows(a.chunks, b.chunks);
    DivisionGrows(100 * a.transferred, 100 * b.transferred, a.chunkCount);
  }

  lemma AdvancesIsTransitive(a: Job, b: Job, c: Job)
    requires Advances(a, b) && Advances(b, c)
    ensures Advances(a, c)
  {
  }

  // ------------------------------------------------- every step keeps a sound job sound

  lemma MarkRunningSound(job: Job, now: int)
    requires Sound(job)
    ensures Sound(MarkRunning(job, now)) && Advances(job, MarkRunning(job, now))
  {
    ProgressIsPercentage(job.chunkCount, job.transferred);
  }

  lemma FailSound(job: Job, message: string, now: int)
    requires Sound(job)
    ensures Sound(Fail(job, message, now)) && Advances(job, Fail(job, message, now))
  {
  }

  lemma CompleteSound(job: Job, now: int)
    requires 0 < job.chunkCount == |job.chunks| && IndexIsPosition(job.chunks)
    ensures Sound(Complete(job, now)) && Advances(job, Complete(job, now))
  {
    CountIsFull(MarkAll(job.chunks));
    ProgressIsPercentage(job.chunkCount, job.chunkCount);
  }

  /**
   * Marking one chunk of a sound job marks that chunk and no other, and completes
   * the job exactly when that was the last one.
   */
  lemma MarkTransferredSound(job: Job, i: nat, now: int)
    requires Sound(job) && i < |job.chunks|
    ensures var after := MarkTransferred(job, i, now);
            && Sound(after) && Advances(job, after)
            && after.chunks == job.chunks[i := job.chunks[i].(transferred := true)]
            && after.status == (if AllMarked(after.chunks) then Completed
                                else if job.status == Queued then Running else job.status)
  {
    var marked := WithChunkMarked(job, i);
    WithChunkMarkedCounts(job, i);
    CountIsFull(marked.chunks);
    hide WithChunkMarked;
    if AllMarked(marked.chunks) {
      CompleteSound(marked, now);
      assert MarkTransferred(job, i, now).chunks == marked.chunks;
    } else {
      ProgressIsPercentage(marked.chunkCount, marked.transferred);
    }
  }

  lemma WithChunkMarkedCounts(job: Job, i: nat)
    requires Sound(job) && i < |job.chunks|
    ensures var marked := WithChunkMarked(job, i);
            && marked.chunks == job.chunks[i := job.chunks[i].(transferred := true)]
            && IndexIsPosition(marked.chunks)
            && marked.transferred == CountMarked(marked.chunks)
            && marked.(chunks := job.chunks, transferred := job.transferred, status := job.status) == job
            && marked.status == (if job.status == Queued then Running else job.status)
            && (marked.status == Completed ==> AllMarked(marked.chunks))
  {
    var marked := WithChunkMarked(job, i);
    assert marked.chunks == job.chunks[i := job.chunks[i].(transferred := true)];
    if !job.chunks[i].transferred {
      MarkingOneCounts(job.chunks, i);
    }
  }

  /** A record fresh from its manifest is sound. */
  lemma NewJobSound(hash: Hash, file: Bytes, job: Job)
    requires file != [] && job.chunks == Manifest(hash, file, job.chunkSize)
    requires job.chunkCount == |job.chunks| && job.transferred == 0 && job.progress == 0 && job.status == Queued
    ensures Sound(job)
  {
    ManifestPartitions(hash, file, job.chunkSize);
    CountRoundsUp(|file|, EffectiveSize(job.chunkSize));
    NoneMarked(job.chunks);
    RemainderOfSum(0, 0, job.chunkCount);
  }

  lemma {:induction false} NoneMarked(chunks: seq<Chunk>)
    requires forall i :: 0 <= i < |chunks| ==> !chunks[i].transferred
    ensures CountMarked(chunks) == 0
  {
    if chunks != [] {
      NoneMarked(chunks[..|chunks| - 1]);
    }
  }

  // ---------------------------------------------------------------- unsent chunks

  /** The positions from `from` on that are not marked, in increasing order. */
  function Unsent(chunks: seq<Chunk>, from: nat): (unsent: seq<nat>)
    requires from <= |chunks|
    ensures forall k :: 0 <= k < |unsent| ==> from <= unsent[k] < |chunks|
    decreases |chunks| - from
  {
    if from == |chunks| then []
    else (if chunks[from].transferred then [] else [from]) + Unsent(chunks, from + 1)
  }

  /** Unsent lists exactly the unmarked positions, each once and in order. */
  lemma {:induction false} UnsentListsUnmarked(chunks: seq<Chunk>, from: nat)
    requires from <= |chunks|
    ensures forall k :: 0 <= k < |Unsent(chunks, from)| ==> !chunks[Unsent(chunks, from)[k]].transferred
    ensures forall j, k :: 0 <= j < k < |Unsent(chunks, from)| ==> Unsent(chunks, from)[j] < Unsent(chunks, from)[k]
    ensures forall i :: from <= i < |chunks| && !chunks[i].transferred ==> i in Unsent(chunks, from)
    decreases |chunks| - from
  {
    if from < |chunks| {
      UnsentListsUnmarked(chunks, from + 1);
    }
  }

  lemma {:induction false} MarkingFirstUnsent(chunks: seq<Chunk>, from: nat)
    requires from <= |chunks| && Unsent(chunks, from) != []
    ensures var first := Unsent(chunks, from)[0];
            from <= first < |chunks| && !chunks[first].transferred &&
            (forall i :: from <= i < first ==> chunks[i].transferred) &&
            Unsent(chunks[first := chunks[first].(transferred := true)], from) == Unsent(chunks, from)[1..]
    decreases |chunks| - from
  {
    if chunks[from].transferred {
      MarkingFirstUnsent(chunks, from + 1);
    } else {
      UnsentIgnoresEarlier(chunks, chunks[from := chunks[from].(transferred := true)], from + 1);
    }
  }

  lemma {:induction false} UnsentIgnoresEarlier(a: seq<Chunk>, b: seq<Chunk>, from: nat)
    requires |a| == |b| && from <= |a| && forall i :: from <= i < |a| ==> a[i] == b[i]
    ensures Unsent(a, from) == Unsent(b, from)
    decreases |a| - from
  {
    if from < |a| {
      UnsentIgnoresEarlier(a, b, from + 1);
    }
  }

  lemma UnsentEmptyWhenAllMarked(chunks: seq<Chunk>)
    ensures Unsent(chunks, 0) == [] <==> AllMarked(chunks)
  {
    UnsentListsUnmarked(chunks, 0);
    if Unsent(chunks, 0) != [] {
      assert !chunks[Unsent(chunks, 0)[0]].transferred;
    }
  }

  // ---------------------------------------------------------------- retry requests

  /** uniqueValidChunkIndexes: the in-range indexes, each at its first occurrence. */
  function FirstOccurrences(indexes: seq<int>, chunkCount: int): seq<int> {
    if indexes == [] then []
    else
      var init, last := FirstOccurrences(indexes[..|indexes| - 1], chunkCount), indexes[|indexes| - 1];
      if 0 <= last < chunkCount && last !in init then init + [last] else init
  }

  /** The least position at which `x` stands in `s`. */
  function FirstPosition(s: seq<int>, x: int): (k: nat)
    requires x in s
    ensures k < |s| && s[k] == x && x !in s[..k]
  {
    if x in s[..|s| - 1] then
      var k := FirstPosition(s[..|s| - 1], x);
      assert s[..|s| - 1][..k] == s[..k];
      k
    else |s| - 1
  }

  /**
   * The result holds exactly the requested indexes that exist, none twice, and two
   * of them stand in the order in which they were first requested.
   */
  lemma {:induction false} FirstOccurrencesAreExact(indexes: seq<int>, chunkCount: int)
    ensures var r := FirstOccurrences(indexes, chunkCount);
            && |r| <= |indexes|
            && (forall x :: x in r <==> x in indexes && 0 <= x < chunkCount)
            && (forall j, k :: 0 <= j < k < |r| ==> r[j] != r[k])
            && (forall j, k :: 0 <= j < k < |r| ==> FirstPosition(indexes, r[j]) < FirstPosition(indexes, r[k]))
  {
    if indexes != [] {
      var n := |indexes| - 1;
      var init, last := indexes[..n], indexes[n];
      assert indexes == init + [last];
      FirstOccurrencesAreExact(init, chunkCount);
      var r, q := FirstOccurrences(indexes, chunkCount), FirstOccurrences(init, chunkCount);
      forall x | x in init ensures FirstPosition(indexes, x) == FirstPosition(init, x) {
      }
      if r != q {
        assert last !in init;
        assert FirstPosition(indexes, last) == n;
      }
    }
  }

  method UniqueValidChunkIndexes(indexes: seq<int>, chunkCount: int) returns (valid: seq<int>)
    ensures valid == FirstOccurrences(indexes, chunkCount)
  {
    var seen: set<int> := {};
    valid := [];
    for i := 0 to |indexes|
      invariant valid == FirstOccurrences(indexes[..i], chunkCount)
      invariant forall x :: x in seen <==> x in valid
    {
      var index := indexes[i];
      assert indexes[..i + 1][..i] == indexes[..i];
      if index < 0 || index >= chunkCount {
        continue;
      }
      if index in seen {
        continue;
      }
      seen := seen + {index};
      valid := valid + [index];
    }
    assert indexes[..|indexes|] == indexes;
  }

  /** The 16-bit indexes of a retry request; an odd last byte is ignored. */
  function MissedChunkIndexes(payload: Bytes): seq<int> {
    if |payload| < 2 then [] else [Uint16(payload[..2])] + MissedChunkIndexes(payload[2..])
  }

  /** How a device writes such a request. */
  function RetryPayload(indexes: seq<uint16>): Bytes {
    if indexes == [] then [] else PutUint16(indexes[0]) + RetryPayload(indexes[1..])
  }

  lemma {:induction false} MissedIndexesAreDecoded(indexes: seq<uint16>, odd: Bytes)
    requires |odd| <= 1
    ensures MissedChunkIndexes(RetryPayload(indexes) + odd) == indexes
  {
    hide PutUint16, Uint16, MissedChunkIndexes;
    if indexes == [] {
      assert RetryPayload(indexes) + odd == odd;
      NoMissedIndexes(odd);
    } else {
      MissedIndexesAreDecoded(indexes[1..], odd);
      Uint16RoundTrip(indexes[0]);
      var rest := RetryPayload(indexes[1..]) + odd;
      assert RetryPayload(indexes) + odd == PutUint16(indexes[0]) + rest;
      FirstMissedIndex(PutUint16(indexes[0]), rest);
      assert indexes == [indexes[0]] + indexes[1..];
    }
  }

  lemma NoMissedIndexes(odd: Bytes)
    requires |odd| <= 1
    ensures MissedChunkIndexes(odd) == []
  {
  }

  lemma FirstMissedIndex(first: Bytes, rest: Bytes)
    requires |first| == 2
    ensures MissedChunkIndexes(first + rest) == [Uint16(first)] + MissedChunkIndexes(rest)
  {
    hide Uint16;
    assert (first + rest)[..2] == first && (first + rest)[2..] == rest;
  }

  method ReadMissedChunkIndexes(payload: Bytes) returns (indexes: seq<int>)
    ensures indexes == MissedChunkIndexes(payload)
  {
    indexes := [];
    var offset := 0;
    while offset + 1 < |payload|
      invariant 0 <= offset <= |payload|
      invariant MissedChunkIndexes(payload) == indexes + MissedChunkIndexes(payload[offset..])
    {
      assert payload[offset..][..2] == payload[offset..offset + 2];
      assert payload[offset..][2..] == payload[offset + 2..];
      indexes := indexes + [Uint16(payload[offset..offset + 2])];
      offset := offset + 2;
    }
  }
}
