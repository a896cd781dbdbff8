/**
 * The flash-job operations as the firmware service runs them, one at a time, over
 * its job store, its binary files and its transport: internal/firmware/ota.go.
 */
module FlashService {
  import opened Basics
  import opened ChunkManifest
  import opened FlashJobs
  import FirmwareCatalog
  import FlashInterleaving
  import Sorting

  datatype Error = NotFound | Conflict | StoreFailed | ReadFailed | TransportFailed

  /** One call of the transport's SendFlashChunk. */
  datatype Attempt = Attempt(jobId: string, index: int, data: Bytes, accepted: bool)

  /** A job record in memory, loaded from the store and changed in place. */
  class FlashJob {
    var id: string
    var deviceId: string
    var firmwareId: string
    var binaryPath: string
    var size: nat
    var chunkSize: int
    var chunkCount: int
    var transferred: int
    var chunks: seq<Chunk>
    var status: Status
    var progress: int
    var error: string
    var updatedAt: int

    function Record(): Job
      reads this
    {
      Job(id, deviceId, firmwareId, binaryPath, size, chunkSize, chunkCount, transferred, chunks,
          status, progress, error, updatedAt)
    }

    constructor (record: Job)
      ensures Record() == record
    {
      id, deviceId, firmwareId, binaryPath := record.id, record.deviceId, record.firmwareId, record.binaryPath;
      size, chunkSize, chunkCount := record.size, record.chunkSize, record.chunkCount;
      transferred, chunks, status := record.transferred, record.chunks, record.status;
      progress, error, updatedAt := record.progress, record.error, record.updatedAt;
    }

    method MarkChunk(index: int)
      requires 0 <= index < |chunks|
      modifies this
      ensures Record() == WithChunkMarked(old(Record()), index)
    {
      if status == Queued {
        status := Running;
      }
      if !chunks[index].transferred {
        chunks := chunks[index := chunks[index].(transferred := true)];
        transferred := transferred + 1;
      }
    }

    method FirstUnsent() returns (position: Option<nat>)
      ensures if Unsent(chunks, 0) == [] then position == None else position == Some(Unsent(chunks, 0)[0])
    {
      for i := 0 to |chunks|
        invariant forall k :: 0 <= k < i ==> chunks[k].transferred
      {
        if !chunks[i].transferred {
          FirstUnsentIs(chunks, i);
          return Some(i);
        }
      }
      UnsentEmptyWhenAllMarked(chunks);
      return None;
    }

    method RefreshProgress()
      modifies this`progress, this`updatedAt
      ensures Record() == old(Record()).(progress := ProgressFor(chunkCount, transferred), updatedAt := updatedAt)
    {
      progress := ProgressFor(chunkCount, transferred);
      updatedAt := *;
    }
  }

  /** What SendFlashChunk marks a chunk on: a queued job is set running first. */
  function Begun(job: Job): Job {
    if job.status == Queued then MarkRunning(job, job.updatedAt) else job
  }

  /** Every chunk can be read back from the job's binary. */
  predicate Intact(hash: Hash, files: map<string, Bytes>, job: Job) {
    job.binaryPath in files &&
    forall i :: 0 <= i < |job.chunks| ==> ReadChunk(hash, files[job.binaryPath], job.chunks[i]).Ok?
  }

  /** The transport accepted chunk `index` of `job`, with the data its binary holds. */
  predicate Accepted(hash: Hash, files: map<string, Bytes>, job: Job, index: int, attempt: Attempt) {
    && job.binaryPath in files && 0 <= index < |job.chunks|
    && var data := ReadChunk(hash, files[job.binaryPath], job.chunks[index]);
       data.Ok? && attempt == Attempt(job.id, index, data.value, true)
  }

  /** Exactly the chunks `plan` of `job` were sent, in that order, and all were accepted. */
  predicate SentExactly(hash: Hash, files: map<string, Bytes>, job: Job, plan: seq<int>, sent: seq<Attempt>) {
    |sent| == |plan| && forall k :: 0 <= k < |plan| ==> Accepted(hash, files, job, plan[k], sent[k])
  }

  /** What a pump sends: all unsent chunks, but of a failed job only the first, unless that is the last. */
  function PumpPlan(job: Job): seq<int> {
    var unsent := Unsent(job.chunks, 0);
    if job.status == Failed && |unsent| > 1 then [unsent[0]] else unsent
  }

  predicate Waiting(job: Job, deviceId: string) {
    job.deviceId == deviceId && (job.status == Running || job.status == Queued)
  }

  predicate Done(job: Job, deviceId: string) {
    job.deviceId == deviceId && job.status == Completed
  }

  /** The job retries and aborts act on: the latest one under way, or else the latest completed one. */
  ghost predicate IsActive(jobs: map<string, Job>, deviceId: string, id: string) {
    && id in jobs
    && (Waiting(jobs[id], deviceId) ||
        (Done(jobs[id], deviceId) && forall other :: other in jobs ==> !Waiting(jobs[other], deviceId)))
    && forall other :: other in jobs ==>
         (if Waiting(jobs[id], deviceId) then Waiting(jobs[other], deviceId) else Done(jobs[other], deviceId)) ==>
         jobs[other].updatedAt <= jobs[id].updatedAt
  }

  /** The device has a job that has not failed. */
  predicate HasLiveJob(jobs: map<string, Job>, deviceId: string) {
    exists id :: id in jobs && jobs[id].deviceId == deviceId && jobs[id].status != Failed
  }

  predicate UpdatedLater(a: Job, b: Job) {
    a.updatedAt > b.updatedAt
  }

  class Service {
    var jobs: map<string, Job>
    var files: map<string, Bytes>
    var attempts: seq<Attempt>
    var completions: seq<string> // calls of the transport's CompleteFlash
    var chunkSize: int
    const hash: Hash
    const hasTransport: bool
    const notifiesCompletion: bool
    const reliable: bool // saves succeed and the transport accepts everything

    constructor (hash: Hash, chunkSize: int, hasTransport: bool, notifiesCompletion: bool, reliable: bool)
      ensures Valid() && jobs == map[] && files == map[] && attempts == [] && completions == []
      ensures this.hash == hash && this.hasTransport == hasTransport
      ensures this.notifiesCompletion == notifiesCompletion && this.reliable == reliable
    {
      this.jobs, this.files, this.attempts, this.completions := map[], map[], [], [];
      this.chunkSize := if chunkSize > 0 then chunkSize else DEFAULT_CHUNK_SIZE;
      this.hash, this.hasTransport := hash, hasTransport;
      this.notifiesCompletion, this.reliable := notifiesCompletion, reliable;
    }

    ghost predicate Valid()
      reads this
    {
      chunkSize > 0 && StoreValid(jobs)
    }

    // ------------------------------------------------- store and transport

    method Save(record: Job) returns (ok: bool)
      modifies this`jobs
      ensures jobs == if ok then old(jobs)[record.id := record] else old(jobs)
      ensures reliable ==> ok
    {
      ok := *;
      if reliable {
        ok := true;
      }
      if ok {
        jobs := jobs[record.id := record];
      }
    }

    method Load(jobId: string) returns (job: FlashJob?)
      ensures job != null <==> jobId in jobs
      ensures job != null ==> fresh(job) && job.Record() == jobs[jobId]
    {
      if jobId !in jobs {
        return null;
      }
      job := new FlashJob(jobs[jobId]);
    }

    method TransportSend(jobId: string, index: int, data: Bytes) returns (ok: bool)
      modifies this`attempts
      ensures attempts == old(attempts) + [Attempt(jobId, index, data, ok)]
      ensures reliable ==> ok
    {
      ok := *;
      if reliable {
        ok := true;
      }
      attempts := attempts + [Attempt(jobId, index, data, ok)];
    }

    method TransportComplete(jobId: string) returns (ok: bool)
      modifies this`completions
      ensures completions == old(completions) + [jobId]
      ensures reliable ==> ok
    {
      ok := *;
      if reliable {
        ok := true;
      }
      completions := completions + [jobId];
    }

    // ------------------------------------------------- record transitions

    method MarkFlashJobRunning(job: FlashJob) returns (err: Option<Error>)
      modifies this`jobs, job
      ensures err in {None, Some(StoreFailed)}
      ensures job.Record() == MarkRunning(old(job.Record()), job.updatedAt)
      ensures jobs == if err.None? then old(jobs)[job.id := job.Record()] else old(jobs)
      ensures reliable ==> err.None?
    {
      var now: int := *;
      job.status := Running;
      job.error := "";
      job.progress := ProgressFor(job.chunkCount, job.transferred);
      job.updatedAt := now;
      var ok := Save(job.Record());
      return if ok then None else Some(StoreFailed);
    }

    method FailLoadedJob(job: FlashJob, message: string) returns (err: Option<Error>)
      modifies this`jobs, job
      ensures err in {None, Some(StoreFailed)}
      ensures job.Record() == Fail(old(job.Record()), message, job.updatedAt)
      ensures jobs == if err.None? then old(jobs)[job.id := job.Record()] else old(jobs)
      ensures reliable ==> err.None?
    {
      var now: int := *;
      job.status := Failed;
      job.error := message;
      job.updatedAt := now;
      var ok := Save(job.Record());
      return if ok then None else Some(StoreFailed);
    }

    method CompleteLoadedJob(job: FlashJob) returns (err: Option<Error>)
      modifies this`jobs, job
      ensures err in {None, Some(StoreFailed)}
      ensures job.Record() == Complete(old(job.Record()), job.updatedAt)
      ensures jobs == if err.None? then old(jobs)[job.id := job.Record()] else old(jobs)
      ensures reliable ==> err.None?
    {
      var now: int := *;
      ghost var before := job.Record();
      var count := |job.chunks|;
      for i := 0 to count
        invariant |job.chunks| == |before.chunks|
        invariant job.Record() == before.(chunks := job.chunks)
        invariant forall k :: 0 <= k < |before.chunks| ==>
                    job.chunks[k] == if k < i then before.chunks[k].(transferred := true) else before.chunks[k]
        modifies job`chunks
      {
        job.chunks := job.chunks[i := job.chunks[i].(transferred := true)];
      }
      assert job.chunks == MarkAll(before.chunks);
      job.transferred := job.chunkCount;
      job.status := Completed;
      job.progress := 100;
      job.error := "";
      job.updatedAt := now;
      var ok := Save(job.Record());
      return if ok then None else Some(StoreFailed);
    }

    // ------------------------------------------------- sending chunks

    /** Marks one chunk of the stored job, and completes the job with the last one. */
    method MarkFlashChunkTransferred(jobId: string, index: int) returns (job: FlashJob?, err: Option<Error>)
      requires Valid()
      modifies this`jobs
      ensures Valid() && FlashInterleaving.StoreAdvances(old(jobs), jobs)
      ensures err.None? ==>
                && jobId in old(jobs) && 0 <= index < |old(jobs)[jobId].chunks|
                && job != null && fresh(job)
                && job.Record() == MarkTransferred(old(jobs)[jobId], index, job.updatedAt)
                && jobs == old(jobs)[jobId := job.Record()]
      ensures err.Some? ==> job == null && jobs == old(jobs) && err.value in {Error.NotFound, StoreFailed}
      ensures reliable && jobId in old(jobs) && 0 <= index < |old(jobs)[jobId].chunks| ==> err.None?
    {
      job := Load(jobId);
      if job == null {
        return null, Some(Error.NotFound);
      }
      if index < 0 || index >= |job.chunks| {
        return null, Some(Error.NotFound);
      }
      ghost var before := job.Record();
      hide Sound, Advances, MarkTransferred, WithChunkMarked, Complete;
      job.MarkChunk(index);
      if job.transferred >= job.chunkCount && job.chunkCount > 0 {
        err := CompleteLoadedJob(job);
      } else {
        job.RefreshProgress();
        var ok := Save(job.Record());
        err := if ok then None else Some(StoreFailed);
      }
      MarkTransferredByCases(before, index, job.updatedAt);
      MarkTransferredSound(before, index, job.updatedAt);
      StoreAdvanced(old(jobs), jobs, job.Record());
      if err.Some? {
        job := null;
      }
    }

    /** Fails the job in hand after a transport call was refused. */
    method FailAfter(job: FlashJob, message: string) returns (err: Error)
      requires Valid() && job.id in jobs && jobs[job.id] == job.Record()
      modifies this`jobs, job
      ensures Valid() && MovedOn(old(jobs), jobs, old(job.id))
      ensures Refused(old(jobs), jobs, old(job.Record()), err)
    {
      ghost var before := job.Record();
      hide Sound, Advances, Fail;
      var failed := FailLoadedJob(job, message);
      FailedIsLater(old(jobs), jobs, before, job.Record());
      return if failed.Some? then failed.value else TransportFailed;
    }

    /** The transport call for one chunk; a refused chunk fails the job. */
    method TransmitChunk(job: FlashJob, index: int, data: Bytes) returns (err: Option<Error>)
      requires Valid() && job.id in jobs && jobs[job.id] == job.Record()
      modifies this`jobs, this`attempts, job
      ensures Valid() && MovedOn(old(jobs), jobs, old(job.id))
      ensures attempts == old(attempts) + [Attempt(old(job.id), index, data, err.None?)]
      ensures err.None? ==> jobs == old(jobs) && job.Record() == old(job.Record())
      ensures err.Some? ==> Refused(old(jobs), jobs, old(job.Record()), err.value)
      ensures reliable ==> err.None?
    {
      hide Refused;
      var accepted := TransportSend(job.id, index, data);
      if accepted {
        NothingMoved(jobs, job.id);
        return None;
      }
      var failed := FailAfter(job, "chunk rejected");
      return Some(failed);
    }

    /** Tells the device that the job is complete, if the transport can; a refusal fails the job. */
    method CompleteDeviceFlash(job: FlashJob) returns (err: Option<Error>)
      requires Valid() && job.id in jobs && jobs[job.id] == job.Record()
      modifies this`jobs, this`completions, job
      ensures Valid() && MovedOn(old(jobs), jobs, old(job.id))
      ensures err.None? ==>
                jobs == old(jobs) && job.Record() == old(job.Record()) &&
                completions == old(completions) + (if job.status == Completed && notifiesCompletion then [job.id] else [])
      ensures err.Some? ==> Refused(old(jobs), jobs, old(job.Record()), err.value)
      ensures reliable ==> err.None?
    {
      hide Refused;
      NothingMoved(jobs, job.id);
      if job.status != Completed || !notifiesCompletion {
        return None;
      }
      var notified := TransportComplete(job.id);
      if notified {
        return None;
      }
      var failed := FailAfter(job, "completion rejected");
      return Some(failed);
    }

    /** Sets a queued job running, as SendFlashChunk does before the transport call. */
    method BeginChunk(job: FlashJob) returns (err: Option<Error>)
      requires Valid() && job.id in jobs && jobs[job.id] == job.Record()
      modifies this`jobs, job
      ensures Valid() && MovedOn(old(jobs), jobs, old(job.id))
      ensures err.None? ==> job.id == old(job.id) && jobs == old(jobs)[job.id := job.Record()]
      ensures job.Record() == if old(job.status) == Queued then MarkRunning(old(job.Record()), job.updatedAt)
                              else old(job.Record())
      ensures err in {None, Some(StoreFailed)} && (err.Some? ==> jobs == old(jobs))
      ensures reliable ==> err.None?
    {
      ghost var before := job.Record();
      NothingMoved(jobs, job.id);
      if job.status != Queued {
        assert jobs == jobs[job.id := job.Record()];
        return None;
      }
      hide Sound, Advances, MarkRunning;
      err := MarkFlashJobRunning(job);
      BegunIsLater(old(jobs), jobs, before, job.Record());
    }

    /** Loads a job, reads one of its chunks, and sets the job running if it was queued. */
    method PrepareChunk(jobId: string, index: int) returns (job: FlashJob?, data: Bytes, err: Option<Error>)
      requires Valid()
      modifies this`jobs
      ensures Valid() && MovedOn(old(jobs), jobs, jobId)
      ensures err.None? ==>
                && hasTransport && jobId in old(jobs) && 0 <= index < |old(jobs)[jobId].chunks|
                && job != null && fresh(job) && job.id == jobId && jobId in jobs && jobs[jobId] == job.Record()
                && job.Record() == (if old(jobs)[jobId].status == Queued then MarkRunning(old(jobs)[jobId], job.updatedAt)
                                    else old(jobs)[jobId])
                && job.chunks == old(jobs)[jobId].chunks
                && Accepted(hash, files, old(jobs)[jobId], index, Attempt(jobId, index, data, true))
      ensures err.Some? ==> err.value != TransportFailed && jobs == old(jobs)
      ensures (reliable && hasTransport && jobId in old(jobs) && 0 <= index < |old(jobs)[jobId].chunks| &&
               Intact(hash, files, old(jobs)[jobId])) ==> err.None?
    {
      hide Sound, Advances, MarkRunning, ReadChunk, MovedOn, Accepted, Intact, StoreValid;
      NothingMoved(jobs, jobId);
      data := [];
      job := Load(jobId);
      if job == null || !hasTransport {
        return null, [], Some(Error.NotFound);
      }
      ghost var before := job.Record();
      var read := ReadChunkOf(job, index);
      if read.Err? {
        return null, [], Some(read.error);
      }
      data := read.value;
      StoredId(jobs, jobId);
      err := BeginChunk(job);
      BegunKeepsManifest(before, job.Record());
    }

    method ReadChunkOf(job: FlashJob, index: int) returns (r: Result<Bytes, Error>)
      ensures r.Ok? ==>
                && 0 <= index < |job.chunks|
                && Accepted(hash, files, job.Record(), index, Attempt(job.id, index, r.value, true))
      ensures r.Err? ==> r.error in {Error.NotFound, ReadFailed}
      ensures 0 <= index < |job.chunks| && Intact(hash, files, job.Record()) ==> r.Ok?
    {
      if index < 0 || index >= |job.chunks| {
        return Err(Error.NotFound);
      }
      if job.binaryPath !in files {
        return Err(ReadFailed);
      }
      hide ReadChunk;
      var read := ReadChunkData(hash, files[job.binaryPath], job.chunks[index]);
      return if read.Ok? then Ok(read.value) else Err(ReadFailed);
    }

    /** Sends one chunk of the stored job and marks it once the transport accepted it. */
    method SendFlashChunk(jobId: string, index: int) returns (job: FlashJob?, err: Option<Error>)
      requires Valid()
      modifies this`jobs, this`attempts, this`completions
      ensures Valid() && MovedOn(old(jobs), jobs, jobId)
      ensures err.None? ==>
                && jobId in old(jobs) && 0 <= index < |old(jobs)[jobId].chunks|
                && job != null && fresh(job) && jobId in jobs && jobs[jobId] == job.Record()
                && job.Record() == MarkTransferred(Begun(old(jobs)[jobId]), index, job.updatedAt)
                && |attempts| == |old(attempts)| + 1
                && attempts == old(attempts) + [attempts[|old(attempts)|]]
                && Accepted(hash, files, old(jobs)[jobId], index, attempts[|old(attempts)|])
                && completions == old(completions) + (if job.status == Completed && notifiesCompletion then [jobId] else [])
      ensures |attempts| <= |old(attempts)| + 1 && old(attempts) <= attempts
      ensures attempts == old(attempts) || !attempts[|old(attempts)|].accepted ==> NothingMarked(old(jobs), jobs, jobId)
      ensures err == Some(TransportFailed) ==> jobId in jobs && jobs[jobId].status == Failed
      ensures (reliable && hasTransport && jobId in old(jobs) && 0 <= index < |old(jobs)[jobId].chunks| &&
               Intact(hash, files, old(jobs)[jobId])) ==> err.None?
    {
      hide Sound, Advances, MarkRunning, MarkTransferred, MovedOn, Accepted, Intact, Begun, StoreValid,
           FlashInterleaving.StoreAdvances, NothingMarked, Refused;
      var data;
      job, data, err := PrepareChunk(jobId, index);
      if err.Some? {
        SameMarks(old(jobs), jobs, jobId);
        return null, err;
      }
      ghost var begun, middle := job.Record(), jobs;
      err := TransmitChunk(job, index, data);
      MovedTwice(old(jobs), middle, jobs, jobId);
      if err.Some? {
        RefusedMarksNothing(old(jobs), middle, jobs, begun, err.value);
        return job, err;
      }
      job, err := MarkFlashChunkTransferred(jobId, index);
      MarkMoves(middle, jobs, jobId);
      MovedTwice(old(jobs), middle, jobs, jobId);
      if err.Some? {
        return null, err;
      }
      MarkIgnoresTime(old(jobs)[jobId], begun, index, job.updatedAt);
      ghost var marked, markedRecord := jobs, job.Record();
      StoredId(jobs, jobId);
      assert job.id == jobId;
      err := CompleteDeviceFlash(job);
      MovedTwice(old(jobs), marked, jobs, jobId);
      if err.Some? {
        RefusedFails(marked, jobs, markedRecord, err.value);
      }
    }

    method CompleteStoredJob(job: FlashJob) returns (err: Option<Error>)
      requires Valid() && job.id in jobs && jobs[job.id] == job.Record()
      modifies this`jobs, job
      ensures Valid() && MovedOn(old(jobs), jobs, old(job.id))
      ensures job.id == old(job.id) && job.Record() == Complete(old(job.Record()), job.updatedAt)
      ensures err.None? ==> job.id in jobs && jobs[job.id] == job.Record()
      ensures reliable ==> err.None?
    {
      ghost var before := job.Record();
      hide Sound, Advances, Complete;
      err := CompleteLoadedJob(job);
      CompletedIsLater(old(jobs), jobs, before, job.Record());
    }

    /** Sends the first chunk not yet marked, or completes the job when there is none. */
    method SendNextFlashChunk(jobId: string) returns (job: FlashJob?, err: Option<Error>)
      requires Valid()
      modifies this`jobs, this`attempts, this`completions
      ensures Valid() && MovedOn(old(jobs), jobs, jobId)
      ensures err.None? ==>
                && jobId in old(jobs) && job != null && fresh(job) && jobId in jobs && jobs[jobId] == job.Record()
                && old(attempts) <= attempts
                && var unsent := Unsent(old(jobs)[jobId].chunks, 0);
                   if unsent == [] then
                     && job.Record() == Complete(old(jobs)[jobId], job.updatedAt)
                     && attempts == old(attempts) && completions == old(completions)
                   else
                     && job.Record() == MarkTransferred(Begun(old(jobs)[jobId]), unsent[0], job.updatedAt)
                     && |attempts| == |old(attempts)| + 1
                     && attempts == old(attempts) + [attempts[|old(attempts)|]]
                     && Accepted(hash, files, old(jobs)[jobId], unsent[0], attempts[|old(attempts)|])
                     && completions ==
                        old(completions) + (if job.status == Completed && notifiesCompletion then [jobId] else [])
      ensures reliable && hasTransport && jobId in old(jobs) && Intact(hash, files, old(jobs)[jobId]) ==> err.None?
    {
      hide Sound, Advances, MarkTransferred, Complete, Intact, Accepted, MovedOn, Unsent, Begun, StoreValid;
      NothingMoved(jobs, jobId);
      job := Load(jobId);
      if job == null {
        return null, Some(Error.NotFound);
      }
      var next := job.FirstUnsent();
      if next.Some? {
        IndexesArePositions(old(jobs), jobId, next.value);
        job, err := SendFlashChunk(jobId, job.chunks[next.value].index);
        return;
      }
      StoredId(jobs, jobId);
      err := CompleteStoredJob(job);
      if err.Some? {
        return null, err;
      }
    }

    /**
     * Sends unsent chunks until the job is completed or failed. A pump that returns
     * no error has sent exactly its plan, in increasing order, and told the device
     * once; on a reliable transport and an intact binary it returns no error.
     */
    method PumpFlashJob(jobId: string) returns (job: FlashJob?, err: Option<Error>)
      requires Valid()
      modifies this`jobs, this`attempts, this`completions
      ensures Valid() && MovedOn(old(jobs), jobs, jobId)
      ensures err.None? ==>
                && jobId in old(jobs) && jobId in jobs && job != null && jobs[jobId] == job.Record()
                && old(attempts) <= attempts
                && SentExactly(hash, files, old(jobs)[jobId], PumpPlan(old(jobs)[jobId]), attempts[|old(attempts)|..])
                && job.status == (if |PumpPlan(old(jobs)[jobId])| == |Unsent(old(jobs)[jobId].chunks, 0)| then Completed else Failed)
                && (job.status == Completed ==> AllMarked(job.chunks))
                && completions == old(completions)
                   + (if job.status == Completed && PumpPlan(old(jobs)[jobId]) != [] && notifiesCompletion then [jobId] else [])
      ensures (reliable && hasTransport && jobId in old(jobs) && Intact(hash, files, old(jobs)[jobId])) ==> err.None?
    {
      hide Sound, Advances, MovedOn, Accepted, Intact, Begun, MarkTransferred, Complete, Unsent, SentExactly, PumpPlan,
           StoreValid, PumpSoFar, AllMarked;
      NothingMoved(jobs, jobId);
      ghost var start, log, sent := jobs, [], [];
      if jobId in jobs {
        PumpStarts(hash, files, jobs[jobId]);
      }
      while true
        invariant Valid() && MovedOn(start, jobs, jobId) && (jobId in start <==> jobId in jobs)
        invariant attempts == old(attempts) + log && completions == old(completions)
        invariant jobId in jobs ==> PumpSoFar(hash, files, start[jobId], jobs[jobId], sent, log)
        decreases if jobId in jobs then |Unsent(jobs[jobId].chunks, 0)| else 0
      {
        ghost var before, earlier := jobs, attempts;
        job, err := SendNextFlashChunk(jobId);
        MovedTwice(start, before, jobs, jobId);
        if jobId in start {
          MovedAdvances(start, before, jobId);
          StillIntact(hash, files, start[jobId], before[jobId]);
        }
        if err.Some? {
          return job, err;
        }
        SoundInStore(before, jobId);
        ghost var left := Unsent(before[jobId].chunks, 0);
        if left == [] {
          PumpFinds(hash, files, start[jobId], before[jobId], job.Record(), sent, log);
        } else {
          MovedAdvances(start, jobs, jobId);
          PumpSends(hash, files, start[jobId], before[jobId], job.Record(), sent, log, attempts[|earlier|]);
          sent, log := sent + [left[0]], log + [attempts[|earlier|]];
        }
        if job.status == Completed || job.status == Failed {
          assert attempts[|old(attempts)|..] == log;
          return job, None;
        }
      }
    }

    // ------------------------------------------------- device signals

    /** The stored jobs of one device, in no particular order. */
    method GetByDeviceID(deviceId: string) returns (list: seq<Job>)
      ensures forall job :: job in list <==> exists id :: id in jobs && jobs[id] == job && job.deviceId == deviceId
    {
      list := [];
      var ids := jobs.Keys;
      while ids != {}
        invariant ids <= jobs.Keys
        invariant forall job :: job in list <==>
                    exists id :: id in jobs && id !in ids && jobs[id] == job && job.deviceId == deviceId
        decreases |ids|
      {
        var id :| id in ids;
        if jobs[id].deviceId == deviceId {
          list := list + [jobs[id]];
        }
        ids := ids - {id};
      }
    }

    method ActiveFlashJobForDevice(deviceId: string) returns (job: FlashJob?)
      requires Valid()
      ensures job != null <==> HasLiveJob(jobs, deviceId)
      ensures job != null ==> fresh(job) && IsActive(jobs, deviceId, job.id) && job.Record() == jobs[job.id]
    {
      var list := ListByUpdate(deviceId);
      hide FromStore, IsActive, HasLiveJob, Sorting.Sorted;
      for index := 0 to |list|
        invariant forall k :: 0 <= k < index ==> !Waiting(list[k], deviceId)
      {
        if list[index].status == Running || list[index].status == Queued {
          ListedDevice(jobs, deviceId, list, index);
          FirstIsActive(jobs, deviceId, list, index);
          job := new FlashJob(list[index]);
          return;
        }
      }
      for index := 0 to |list|
        invariant forall k :: 0 <= k < index ==> !Done(list[k], deviceId)
      {
        if list[index].status == Completed {
          ListedDevice(jobs, deviceId, list, index);
          FirstIsActive(jobs, deviceId, list, index);
          job := new FlashJob(list[index]);
          return;
        }
      }
      NoneIsLive(jobs, deviceId, list);
      return null;
    }

    /** The stored jobs of one device, the latest change first. */
    method ListByUpdate(deviceId: string) returns (list: seq<Job>)
      requires Valid()
      ensures FromStore(jobs, deviceId, list) && Sorting.Sorted(UpdatedLater, list)
    {
      list := GetByDeviceID(deviceId);
      ghost var found := list;
      list := Sorting.SortSlice(UpdatedLater, list);
      SortedHasSame(found, list);
      AllFromStore(jobs, deviceId, list);
    }

    /**
     * Resends the chunks a device asked for: each distinct index that exists, once,
     * in the order of first request. More than ten indexes fail the job instead.
     */
    method RetryMissedFlashChunks(deviceId: string, chunkIndexes: seq<int>)
      returns (job: FlashJob?, err: Option<Error>, ghost activeId: string)
      requires Valid()
      modifies this`jobs, this`attempts, this`completions
      ensures Valid() && MovedOn(old(jobs), jobs, activeId)
      ensures err.None? ==> IsActive(old(jobs), deviceId, activeId)
      ensures err.None? && |chunkIndexes| <= MAX_MISSED_CHUNKS ==>
                && activeId in old(jobs) && old(attempts) <= attempts
                && SentExactly(hash, files, old(jobs)[activeId],
                               FirstOccurrences(chunkIndexes, |old(jobs)[activeId].chunks|), attempts[|old(attempts)|..])
      ensures |chunkIndexes| > MAX_MISSED_CHUNKS ==> attempts == old(attempts) && completions == old(completions)
      ensures err.None? && |chunkIndexes| > MAX_MISSED_CHUNKS ==>
                activeId in jobs && jobs[activeId].status == Failed
      ensures (reliable && hasTransport && HasLiveJob(old(jobs), deviceId) &&
               forall id :: id in old(jobs) ==> Intact(hash, files, old(jobs)[id])) ==> err.None?
    {
      activeId := "";
      NothingMoved(jobs, activeId);
      job := ActiveFlashJobForDevice(deviceId);
      if job == null {
        return null, Some(Error.NotFound), activeId;
      }
      activeId := job.id;
      var jobId := job.id;
      NothingMoved(jobs, activeId);
      NothingSent(hash, files, job.Record());
      assert attempts[|old(attempts)|..] == [];
      hide Sound, Advances, MovedOn, Accepted, SentExactly, Intact, IsActive, Fail;
      if |chunkIndexes| == 0 {
        return job, None, activeId;
      }
      if |chunkIndexes| > MAX_MISSED_CHUNKS {
        ghost var before := job.Record();
        err := FailLoadedJob(job, "too many missed OTA chunks");
        FailedIsLater(old(jobs), jobs, before, job.Record());
        return (if err.None? then job else null), err, activeId;
      }
      var indexes := UniqueValidChunkIndexes(chunkIndexes, |job.chunks|);
      if |indexes| == 0 {
        return job, None, activeId;
      }
      FirstOccurrencesAreExact(chunkIndexes, |job.chunks|);
      assert forall k :: 0 <= k < |indexes| ==> indexes[k] in indexes;
      job, err := ResendChunks(job.id, indexes);
    }

    method ResendChunk(jobId: string, index: int, ghost start: map<string, Job>) returns (job: FlashJob?, err: Option<Error>)
      requires Valid() && MovedOn(start, jobs, jobId) && jobId in start && 0 <= index < |start[jobId].chunks|
      modifies this`jobs, this`attempts, this`completions
      ensures Valid() && MovedOn(start, jobs, jobId)
      ensures err.None? ==>
                && |attempts| == |old(attempts)| + 1
                && attempts == old(attempts) + [attempts[|old(attempts)|]]
                && Accepted(hash, files, start[jobId], index, attempts[|old(attempts)|])
      ensures reliable && hasTransport && Intact(hash, files, start[jobId]) ==> err.None?
    {
      hide Sound, Advances, MovedOn, Accepted, Intact, StoreValid, MarkTransferred, Begun;
      ghost var before, earlier := jobs, attempts;
      MovedAdvances(start, before, jobId);
      StillIntact(hash, files, start[jobId], before[jobId]);
      SameChunkCount(start[jobId], before[jobId]);
      job, err := SendFlashChunk(jobId, index);
      MovedTwice(start, before, jobs, jobId);
      if err.None? {
        StillAccepted(hash, files, start[jobId], before[jobId], index, attempts[|earlier|]);
      }
    }

    /** One turn of the loop of RetryMissedFlashChunks, which began with the store `start` and the log `began`. */
    method ResendNext(jobId: string, indexes: seq<int>, k: nat, ghost start: map<string, Job>, ghost began: seq<Attempt>)
      returns (job: FlashJob?, err: Option<Error>)
      requires Valid() && MovedOn(start, jobs, jobId) && jobId in start && k < |indexes|
      requires 0 <= indexes[k] < |start[jobId].chunks|
      requires SentSoFar(hash, files, start[jobId], indexes, k, began, attempts)
      modifies this`jobs, this`attempts, this`completions
      ensures Valid() && MovedOn(start, jobs, jobId)
      ensures err.None? ==> SentSoFar(hash, files, start[jobId], indexes, k + 1, began, attempts)
      ensures reliable && hasTransport && Intact(hash, files, start[jobId]) ==> err.None?
    {
      hide MovedOn, Accepted, SentSoFar, Intact, StoreValid;
      ghost var earlier := attempts;
      job, err := ResendChunk(jobId, indexes[k], start);
      if err.None? {
        SentNext(hash, files, start[jobId], indexes, k, began, earlier, attempts);
      }
    }

    method ResendChunks(jobId: string, indexes: seq<int>) returns (job: FlashJob?, err: Option<Error>)
      requires Valid() && jobId in jobs
      requires forall k :: 0 <= k < |indexes| ==> 0 <= indexes[k] < |jobs[jobId].chunks|
      modifies this`jobs, this`attempts, this`completions
      ensures Valid() && MovedOn(old(jobs), jobs, jobId)
      ensures err.None? ==>
                old(attempts) <= attempts &&
                SentExactly(hash, files, old(jobs)[jobId], indexes, attempts[|old(attempts)|..])
      ensures reliable && hasTransport && Intact(hash, files, old(jobs)[jobId]) ==> err.None?
    {
      hide MovedOn, SentSoFar, SentExactly, Intact, StoreValid;
      ghost var start, began := jobs, attempts;
      NothingMoved(jobs, jobId);
      SentNoneYet(hash, files, jobs[jobId], indexes, attempts);
      job, err := null, None;
      for k := 0 to |indexes|
        invariant Valid() && MovedOn(start, jobs, jobId)
        invariant SentSoFar(hash, files, start[jobId], indexes, k, began, attempts)
        invariant err.None?
      {
        job, err := ResendNext(jobId, indexes, k, start, began);
        if err.Some? {
          return job, err;
        }
      }
      SentAll(hash, files, start[jobId], indexes, began, attempts);
    }

    method AbortDeviceFlash(deviceId: string, message: string) returns (job: FlashJob?, err: Option<Error>)
      requires Valid()
      modifies this`jobs
      ensures Valid()
      ensures err.None? ==>
                && job != null && IsActive(old(jobs), deviceId, job.id) && MovedOn(old(jobs), jobs, job.id)
                && jobs == old(jobs)[job.id := job.Record()]
                && job.Record() == Fail(old(jobs)[job.id], if message == "" then "device aborted flash" else message, job.updatedAt)
      ensures err.Some? ==> jobs == old(jobs)
      ensures reliable && HasLiveJob(old(jobs), deviceId) ==> err.None?
    {
      job := ActiveFlashJobForDevice(deviceId);
      if job == null {
        return null, Some(Error.NotFound);
      }
      ghost var before := job.Record();
      err := FailLoadedJob(job, if message == "" then "device aborted flash" else message);
      FailedIsLater(old(jobs), jobs, before, job.Record());
      if err.Some? {
        job := null;
      }
    }

    // ------------------------------------------------- starting, completing, failing

    method StartFlashJob(jobId: string) returns (job: FlashJob?, err: Option<Error>)
      requires Valid()
      modifies this`jobs
      ensures Valid() && MovedOn(old(jobs), jobs, jobId)
      ensures err.None? ==> jobId in old(jobs) && job != null && jobs == old(jobs)[jobId := job.Record()] &&
                            job.Record() == MarkRunning(old(jobs)[jobId], job.updatedAt)
      ensures err.Some? ==> jobs == old(jobs)
    {
      NothingMoved(jobs, jobId);
      job := Load(jobId);
      if job == null {
        return null, Some(Error.NotFound);
      }
      StoredId(jobs, jobId);
      ghost var before := job.Record();
      err := MarkFlashJobRunning(job);
      BegunIsLater(old(jobs), jobs, before, job.Record());
    }

    method FailFlashJob(jobId: string, message: string) returns (job: FlashJob?, err: Option<Error>)
      requires Valid()
      modifies this`jobs
      ensures Valid() && MovedOn(old(jobs), jobs, jobId)
      ensures err.None? ==> jobId in old(jobs) && job != null && jobs == old(jobs)[jobId := job.Record()] &&
                            job.Record() == Fail(old(jobs)[jobId], message, job.updatedAt)
      ensures err.Some? ==> jobs == old(jobs)
    {
      NothingMoved(jobs, jobId);
      job := Load(jobId);
      if job == null {
        return null, Some(Error.NotFound);
      }
      StoredId(jobs, jobId);
      ghost var before := job.Record();
      err := FailLoadedJob(job, message);
      FailedIsLater(old(jobs), jobs, before, job.Record());
    }

    method CompleteFlashJob(jobId: string) returns (job: FlashJob?, err: Option<Error>)
      requires Valid()
      modifies this`jobs
      ensures Valid() && MovedOn(old(jobs), jobs, jobId)
      ensures err.None? ==> jobId in old(jobs) && job != null && jobId in jobs && jobs[jobId] == job.Record() &&
                            job.Record() == Complete(old(jobs)[jobId], job.updatedAt)
    {
      NothingMoved(jobs, jobId);
      job := Load(jobId);
      if job == null {
        return null, Some(Error.NotFound);
      }
      StoredId(jobs, jobId);
      err := CompleteStoredJob(job);
    }

    /** BeginFlash on the transport. */
    method TransportBegin(job: FlashJob) returns (ok: bool)
      ensures reliable ==> ok
    {
      ok := *;
      if reliable {
        ok := true;
      }
    }

    /**
     * Selects a firmware of the product, by reference or the current one, creates a
     * job for its binary and, with a transport, runs it. The job announces the size in
     * the firmware's record; that is the size of the binary while the record describes
     * it. The services use one directory of binaries, and the run of the catalogue may
     * be one in which its operations overlapped.
     */
    method StartDeviceFlash(catalog: FirmwareCatalog.Service, jobId: string, deviceId: string, productId: string, reference: string)
      returns (job: FlashJob?, err: Option<Error>)
      requires Valid() && catalog.Valid() && catalog.files == files && catalog.hash == hash
      modifies this`jobs, this`attempts, this`completions
      ensures Valid()
      ensures forall id :: id in old(jobs) ==> id in jobs && jobs[id] == old(jobs)[id]
      ensures forall id :: id in jobs && id !in old(jobs) ==> id == jobId
      ensures jobId in jobs && jobId !in old(jobs) ==>
                && jobs[jobId].deviceId == deviceId
                && FlashesFirmware(catalog.firmwares, jobs[jobId])
                && Selected(catalog.firmwares, catalog.parse, productId, reference, catalog.firmwares[jobs[jobId].firmwareId])
                && jobs[jobId].binaryPath in files
                && SameManifest(Manifest(hash, files[jobs[jobId].binaryPath], chunkSize), jobs[jobId].chunks)
                && (FirmwareCatalog.Described(catalog.history, jobs[jobId].firmwareId) ==>
                      jobs[jobId].size == |files[jobs[jobId].binaryPath]|)
      ensures err.None? ==> job != null && jobId in jobs && jobId !in old(jobs) && jobs[jobId] == job.Record()
      ensures err.None? && hasTransport ==>
                && job.status == Completed && AllMarked(job.chunks)
                && old(attempts) <= attempts && |attempts| == |old(attempts)| + |job.chunks|
                && (forall k :: 0 <= k < |job.chunks| ==>
                      attempts[|old(attempts)| + k] ==
                      Attempt(jobId, k, Piece(files[job.binaryPath], chunkSize, k), true))
      ensures err.None? && !hasTransport ==> job.status == Queued && attempts == old(attempts)
    {
      hide StoreValid, Manifest, SameManifest, Piece, AllMarked, FirmwareCatalog.Execute, FirmwareCatalog.Legal,
           FirmwareCatalog.DesignationsStandAlone, FirmwareCatalog.Refers, FirmwareCatalog.IsServed, FirmwareCatalog.Known,
           FirmwareCatalog.Paired, FirmwareCatalog.LastDesignated, FirmwareCatalog.KeysAreIds,
           FirmwareCatalog.FilesLegal, FirmwareCatalog.Files, FirmwareCatalog.Described;
      if deviceId == "" || productId == "" {
        return null, Some(Error.NotFound);
      }
      FirmwareCatalog.EveryRunKeepsOneCurrent(catalog.history);
      var found;
      if reference != "" {
        found := catalog.GetProductFirmware(productId, reference);
      } else {
        found := catalog.CurrentProductFirmware(productId);
      }
      if found.Err? {
        return null, Some(Error.NotFound);
      }
      var target := found.value;
      if reference != "" {
        FirmwareCatalog.RefersToStored(catalog.firmwares, catalog.parse, productId, reference, target);
      }
      if target.binary.path == "" {
        return null, Some(Error.NotFound);
      }
      RecordedSize(catalog.pathFor, hash, catalog.history, target.id);
      job, err := FlashFirmware(jobId, deviceId, target.id, target.binary.path, target.binary.size);
    }

    /** StartDeviceFlash once a firmware is selected. */
    method FlashFirmware(jobId: string, deviceId: string, firmwareId: string, binaryPath: string, size: nat)
      returns (job: FlashJob?, err: Option<Error>)
      requires Valid()
      modifies this`jobs, this`attempts, this`completions
      ensures Valid()
      ensures forall id :: id in old(jobs) ==> id in jobs && jobs[id] == old(jobs)[id]
      ensures forall id :: id in jobs && id !in old(jobs) ==> id == jobId
      ensures jobId in jobs && jobId !in old(jobs) ==>
                && binaryPath in files && jobs[jobId].deviceId == deviceId && jobs[jobId].firmwareId == firmwareId
                && jobs[jobId].binaryPath == binaryPath && jobs[jobId].size == size
                && SameManifest(Manifest(hash, files[binaryPath], chunkSize), jobs[jobId].chunks)
      ensures err.None? ==> job != null && jobId in jobs && jobId !in old(jobs) && jobs[jobId] == job.Record()
      ensures err.None? && hasTransport ==>
                && job.status == Completed && AllMarked(job.chunks)
                && old(attempts) <= attempts && |attempts| == |old(attempts)| + |job.chunks|
                && (forall k :: 0 <= k < |job.chunks| ==>
                      attempts[|old(attempts)| + k] ==
                      Attempt(jobId, k, Piece(files[binaryPath], chunkSize, k), true))
      ensures err.None? && !hasTransport ==> job.status == Queued && attempts == old(attempts)
      ensures reliable && deviceId != "" && jobId !in old(jobs) && binaryPath in files && files[binaryPath] != [] ==> err.None?
    {
      hide Sound, Manifest, PumpPlan, SentExactly, Unsent, MovedOn, Intact, SameManifest, StoreValid, Advances,
           ReadChunk, Piece;
      job, err := CreateFlashJob(jobId, deviceId, firmwareId, binaryPath, size);
      if err.Some? {
        return null, err;
      }
      ghost var created, withJob := job.Record(), jobs;
      NewJobPlan(hash, files, created);
      if !hasTransport {
        return job, None;
      }
      job, err := BeginAndPumpFlashJob(job);
      JobAdded(old(jobs), withJob, jobs, created);
      if err.None? {
        SentPieces(hash, files, created, attempts[|old(attempts)|..]);
        SentAt(old(attempts), attempts);
      }
    }

    // ------------------------------------------------- automatic updates

    /** When the jobs cannot be read, none is found. */
    method HasFlashJobForDevice(deviceId: string, firmwareId: string) returns (found: bool, ghost readable: bool)
      ensures found <==> readable && FlashInterleaving.HasFlashJob(jobs, deviceId, firmwareId)
      ensures reliable ==> readable
    {
      var read: bool := *;
      readable := read || reliable;
      if !read && !reliable {
        return false, readable;
      }
      var list := GetByDeviceID(deviceId);
      for index := 0 to |list|
        invariant forall k :: 0 <= k < index ==> list[k].firmwareId != firmwareId || list[k].status == Failed
      {
        if list[index].firmwareId == firmwareId &&
           (list[index].status == Queued || list[index].status == Running || list[index].status == Completed) {
          assert list[index] in list;
          return true, readable;
        }
      }
      forall id | id in jobs && jobs[id].deviceId == deviceId
        ensures jobs[id].firmwareId != firmwareId || jobs[id].status == Failed
      {
        assert jobs[id] in list;
      }
      return false, readable;
    }

    /**
     * Offers a device the firmware it should run, and flashes it, unless the device
     * has a job for that firmware that has not failed; `readable` says whether the jobs
     * could be read to see that. `desired` is the version the product pins the device to.
     */
    method CheckAndStartProductFirmwareUpdate(
      catalog: FirmwareCatalog.Service, jobId: string, deviceId: string, productId: string,
      desired: Option<int>, currentVersion: int, currentFirmware: string)
      returns (job: FlashJob?, started: bool, err: Option<Error>, ghost readable: bool)
      requires Valid() && catalog.Valid() && catalog.files == files && catalog.hash == hash
      modifies this`jobs, this`attempts, this`completions
      ensures Valid()
      ensures forall id :: id in old(jobs) ==> id in jobs && jobs[id] == old(jobs)[id]
      ensures forall id :: id in jobs && id !in old(jobs) ==> id == jobId
      ensures jobId in jobs && jobId !in old(jobs) ==>
                && jobs[jobId].deviceId == deviceId
                && (readable ==> !FlashInterleaving.HasFlashJob(old(jobs), deviceId, jobs[jobId].firmwareId))
                && Offered(catalog.firmwares, catalog.history, productId, desired, currentVersion, currentFirmware,
                           jobs[jobId].firmwareId)
                && FlashesFirmware(catalog.firmwares, jobs[jobId])
      ensures reliable ==> readable
      ensures readable && FlashInterleaving.OneLivePerPair(old(jobs)) ==> FlashInterleaving.OneLivePerPair(jobs)
      ensures started ==> err.None? && job != null && jobId in jobs && jobId !in old(jobs)
      ensures started && hasTransport ==> job.status == Completed && AllMarked(job.chunks)
      ensures err.None? && !started ==> jobs == old(jobs) && attempts == old(attempts)
      ensures err.None? && !started && productId != "" ==>
                || FirmwareCatalog.NothingDue(catalog.firmwares, productId, desired.Some?, currentVersion, currentFirmware)
                || (readable && HasJobFor(catalog.firmwares, old(jobs), productId, deviceId))
    {
      hide StoreValid, Manifest, SameManifest, Piece, AllMarked, FlashInterleaving.OneLivePerPair, FlashInterleaving.HasFlashJob,
           FirmwareCatalog.Execute, FirmwareCatalog.Legal, FirmwareCatalog.Paired, FirmwareCatalog.LastDesignated,
           FirmwareCatalog.UpdateAvailable, FirmwareCatalog.DesignationsStandAlone, FirmwareCatalog.FilesLegal, FirmwareCatalog.Files,
           FirmwareCatalog.Chosen, FirmwareCatalog.KeysAreIds, Selected;
      job, started, err, readable := null, false, None, true;
      if deviceId == "" {
        err := Some(Error.NotFound);
        return;
      }
      if productId == "" {
        return;
      }
      var check := catalog.CheckProductFirmwareUpdate(productId, desired, currentVersion, currentFirmware);
      if check.Err? {
        err := Some(Error.NotFound);
        return;
      }
      if check.value.None? {
        return;
      }
      if !check.value.value.1 {
        NotDue(catalog.firmwares, productId, desired.Some?, currentVersion, currentFirmware, check.value.value.0.id);
        return;
      }
      var target := check.value.value.0;
      assert Offered(catalog.firmwares, catalog.history, productId, desired, currentVersion, currentFirmware, target.id);
      var busy;
      busy, readable := HasFlashJobForDevice(deviceId, target.id);
      if busy {
        return;
      }
      FirmwareCatalog.EveryRunKeepsOneCurrent(catalog.history);
      job, err := StartDeviceFlash(catalog, jobId, deviceId, productId, target.id);
      started := err.None?;
      if jobId in jobs && jobId !in old(jobs) {
        SelectedById(catalog.firmwares, catalog.parse, productId, target.id, jobs[jobId].firmwareId);
      }
      if readable {
        OneMoreLive(old(jobs), jobs, jobId, deviceId, target.id);
      }
    }

    lemma SentAt(before: seq<Attempt>, after: seq<Attempt>)
      requires before <= after
      ensures forall k :: 0 <= k < |after| - |before| ==> after[|before|..][k] == after[|before| + k]
    {
    }

    /** The first half of StartDeviceFlash: the manifest and the stored record. */
    method CreateFlashJob(jobId: string, deviceId: string, firmwareId: string, binaryPath: string, size: nat)
      returns (job: FlashJob?, err: Option<Error>)
      requires Valid()
      modifies this`jobs
      ensures Valid()
      ensures err.Some? ==> job == null && jobs == old(jobs)
      ensures err.None? ==>
                && jobId !in old(jobs) && binaryPath in files && files[binaryPath] != []
                && job != null && fresh(job) && jobs == old(jobs)[jobId := job.Record()]
                && job.id == jobId && job.deviceId == deviceId && job.firmwareId == firmwareId && job.binaryPath == binaryPath
                && job.size == size
                && job.chunkSize == chunkSize && job.chunks == Manifest(hash, files[binaryPath], chunkSize) && job.status == Queued
      ensures reliable && deviceId != "" && jobId !in old(jobs) && binaryPath in files && files[binaryPath] != [] ==> err.None?
    {
      if deviceId == "" || binaryPath !in files {
        return null, Some(Error.NotFound);
      }
      hide Manifest, Sound;
      var chunks := BuildChunkManifest(hash, files[binaryPath], chunkSize);
      if chunks.Err? {
        return null, Some(Error.NotFound);
      }
      job := new FlashJob(Job(jobId, deviceId, firmwareId, binaryPath, size, chunkSize, |chunks.value|, 0,
                              chunks.value, Queued, 0, "", 0));
      if jobId in jobs {
        return null, Some(Conflict);
      }
      NewJobSound(hash, files[binaryPath], job.Record());
      var saved := Save(job.Record());
      if !saved {
        return null, Some(StoreFailed);
      }
      return job, None;
    }

    method BeginAndPumpFlashJob(loaded: FlashJob) returns (job: FlashJob?, err: Option<Error>)
      requires Valid() && loaded.id in jobs && jobs[loaded.id] == loaded.Record() && hasTransport
      requires loaded.status == Queued && |PumpPlan(loaded.Record())| == |Unsent(loaded.chunks, 0)|
      modifies this`jobs, this`attempts, this`completions, loaded
      ensures Valid() && MovedOn(old(jobs), jobs, old(loaded.id))
      ensures err.None? ==>
                && job != null && old(loaded.id) in jobs && jobs[old(loaded.id)] == job.Record()
                && job.status == Completed && AllMarked(job.chunks)
                && old(attempts) <= attempts
                && SentExactly(hash, files, old(loaded.Record()), PumpPlan(old(loaded.Record())), attempts[|old(attempts)|..])
      ensures reliable && Intact(hash, files, old(loaded.Record())) ==> err.None?
    {
      hide Sound, Advances, PumpPlan, SentExactly, Unsent, MovedOn, Intact, StoreValid, MarkRunning, AllMarked, Refused;
      ghost var created := loaded.Record();
      var begun := TransportBegin(loaded);
      if !begun {
        var failed := FailAfter(loaded, "begin rejected");
        return loaded, Some(failed);
      }
      err := MarkFlashJobRunning(loaded);
      BegunIsLater(old(jobs), jobs, created, loaded.Record());
      if err.Some? {
        return null, err;
      }
      BegunPlan(hash, files, created, loaded.Record());
      ghost var running, begunRecord := jobs, loaded.Record();
      job, err := PumpFlashJob(loaded.id);
      MovedTwice(old(jobs), running, jobs, created.id);
      if err.None? {
        SentForCreated(hash, files, created, begunRecord, attempts[|old(attempts)|..]);
      }
    }
  }

  /** A new record was stored, and only that one has changed since. */
  lemma JobAdded(before: map<string, Job>, withJob: map<string, Job>, after: map<string, Job>, created: Job)
    requires created.id !in before && withJob == before[created.id := created] && MovedOn(withJob, after, created.id)
    ensures forall id :: id in before ==> id in after && after[id] == before[id]
    ensures forall id :: id in after && id !in before ==> id == created.id
    ensures created.id in after && Advances(created, after[created.id])
    ensures after[created.id].deviceId == created.deviceId && after[created.id].firmwareId == created.firmwareId
    ensures after[created.id].binaryPath == created.binaryPath && after[created.id].size == created.size
    ensures SameManifest(created.chunks, after[created.id].chunks)
    ensures |after[created.id].chunks| == |created.chunks|
  {
  }

  lemma SentForCreated(hash: Hash, files: map<string, Bytes>, created: Job, begun: Job, sent: seq<Attempt>)
    requires begun == MarkRunning(created, begun.updatedAt)
    requires SentExactly(hash, files, begun, PumpPlan(begun), sent) && PumpPlan(begun) == PumpPlan(created)
    ensures SentExactly(hash, files, created, PumpPlan(created), sent)
  {
    hide PumpPlan;
  }

  /** The data of a complete set of accepted chunks is the pieces of the binary. */
  lemma SentPieces(hash: Hash, files: map<string, Bytes>, job: Job, sent: seq<Attempt>)
    requires job.binaryPath in files && job.chunkSize > 0 && PumpPlan(job) == seq(|job.chunks|, k => k)
    requires SentExactly(hash, files, job, PumpPlan(job), sent)
    requires forall k :: 0 <= k < |job.chunks| ==>
               ReadChunk(hash, files[job.binaryPath], job.chunks[k]) == Ok(Piece(files[job.binaryPath], job.chunkSize, k))
    ensures |sent| == |job.chunks|
    ensures forall k :: 0 <= k < |job.chunks| ==>
              sent[k] == Attempt(job.id, k, Piece(files[job.binaryPath], job.chunkSize, k), true)
  {
    hide PumpPlan, ReadChunk, Piece;
    forall k | 0 <= k < |job.chunks|
      ensures sent[k] == Attempt(job.id, k, Piece(files[job.binaryPath], job.chunkSize, k), true)
    {
      assert PumpPlan(job)[k] == k && Accepted(hash, files, job, PumpPlan(job)[k], sent[k]);
    }
  }

  /** A new job has every chunk to send, and its binary can be read back. */
  lemma NewJobPlan(hash: Hash, files: map<string, Bytes>, job: Job)
    requires job.binaryPath in files && files[job.binaryPath] != [] && job.chunkSize > 0
    requires job.chunks == Manifest(hash, files[job.binaryPath], job.chunkSize) && job.status == Queued
    ensures Intact(hash, files, job) && SameManifest(job.chunks, job.chunks)
    ensures PumpPlan(job) == seq(|job.chunks|, k => k) && |Unsent(job.chunks, 0)| == |job.chunks|
    ensures forall k :: 0 <= k < |job.chunks| ==>
              ReadChunk(hash, files[job.binaryPath], job.chunks[k]) == Ok(Piece(files[job.binaryPath], job.chunkSize, k))
  {
    ReadingReassembles(hash, files[job.binaryPath], job.chunkSize);
    ManifestPartitions(hash, files[job.binaryPath], job.chunkSize);
    AllUnsent(job.chunks, 0);
  }

  lemma {:induction false} AllUnsent(chunks: seq<Chunk>, from: nat)
    requires from <= |chunks| && forall i :: from <= i < |chunks| ==> !chunks[i].transferred
    ensures Unsent(chunks, from) == seq(|chunks| - from, (k: nat) => from + k)
    decreases |chunks| - from
  {
    if from < |chunks| {
      AllUnsent(chunks, from + 1);
    }
  }

  lemma BegunPlan(hash: Hash, files: map<string, Bytes>, job: Job, begun: Job)
    requires begun == MarkRunning(job, begun.updatedAt) && job.status == Queued
    ensures PumpPlan(begun) == PumpPlan(job) && begun.chunks == job.chunks && begun.binaryPath == job.binaryPath
    ensures begun.id == job.id && begun.status == Running
    ensures Intact(hash, files, job) ==> Intact(hash, files, begun)
  {
    hide Unsent;
  }

  lemma SameChunkCount(a: Job, b: Job)
    requires Advances(a, b)
    ensures |a.chunks| == |b.chunks|
  {
  }

  lemma SortedHasSame(found: seq<Job>, list: seq<Job>)
    requires multiset(found) == multiset(list)
    ensures forall job :: job in found <==> job in list
  {
    assert forall job :: job in found <==> job in multiset(found);
    assert forall job :: job in list <==> job in multiset(list);
  }

  /** The list holds the device's stored records and nothing else. */
  ghost predicate FromStore(jobs: map<string, Job>, deviceId: string, list: seq<Job>) {
    && (forall k :: 0 <= k < |list| ==> list[k].id in jobs && jobs[list[k].id] == list[k] && list[k].deviceId == deviceId)
    && (forall id :: id in jobs && jobs[id].deviceId == deviceId ==> jobs[id] in list)
  }

  lemma AllFromStore(jobs: map<string, Job>, deviceId: string, list: seq<Job>)
    requires StoreValid(jobs)
    requires forall job :: job in list <==> exists id :: id in jobs && jobs[id] == job && job.deviceId == deviceId
    ensures FromStore(jobs, deviceId, list)
  {
    hide Sound;
    forall k | 0 <= k < |list|
      ensures list[k].id in jobs && jobs[list[k].id] == list[k] && list[k].deviceId == deviceId
    {
      assert list[k] in list;
    }
  }

  lemma ListedDevice(jobs: map<string, Job>, deviceId: string, list: seq<Job>, index: nat)
    requires FromStore(jobs, deviceId, list) && index < |list|
    ensures list[index].deviceId == deviceId
  {
  }

  lemma NoneIsLive(jobs: map<string, Job>, deviceId: string, list: seq<Job>)
    requires FromStore(jobs, deviceId, list)
    requires forall k :: 0 <= k < |list| ==> !Waiting(list[k], deviceId) && !Done(list[k], deviceId)
    ensures !HasLiveJob(jobs, deviceId)
  {
    forall id | id in jobs && jobs[id].deviceId == deviceId ensures jobs[id].status == Failed {
      var k :| 0 <= k < |list| && list[k] == jobs[id];
      assert !Waiting(list[k], deviceId) && !Done(list[k], deviceId);
    }
  }

  /** The first suitable record of the sorted list is the active job. */
  lemma FirstIsActive(jobs: map<string, Job>, deviceId: string, list: seq<Job>, index: nat)
    requires FromStore(jobs, deviceId, list) && Sorting.Sorted(UpdatedLater, list) && index < |list|
    requires if Waiting(list[index], deviceId) then forall k :: 0 <= k < index ==> !Waiting(list[k], deviceId)
             else Done(list[index], deviceId) && (forall k :: 0 <= k < |list| ==> !Waiting(list[k], deviceId)) &&
                  forall k :: 0 <= k < index ==> !Done(list[k], deviceId)
    ensures IsActive(jobs, deviceId, list[index].id) && HasLiveJob(jobs, deviceId)
    ensures list[index] == jobs[list[index].id]
  {
    var id := list[index].id;
    forall other | other in jobs &&
        (if Waiting(jobs[id], deviceId) then Waiting(jobs[other], deviceId) else Done(jobs[other], deviceId))
      ensures jobs[other].updatedAt <= jobs[id].updatedAt
    {
      var k :| 0 <= k < |list| && list[k] == jobs[other];
      if index < k {
        assert !UpdatedLater(list[k], list[index]);
      }
    }
  }

  lemma FirstUnsentIs(chunks: seq<Chunk>, i: nat)
    requires i < |chunks| && !chunks[i].transferred && forall k :: 0 <= k < i ==> chunks[k].transferred
    ensures Unsent(chunks, 0) != [] && Unsent(chunks, 0)[0] == i
  {
    UnsentListsUnmarked(chunks, 0);
    var unsent := Unsent(chunks, 0);
    assert i in unsent;
    assert !chunks[unsent[0]].transferred;
  }

  lemma NothingSent(hash: Hash, files: map<string, Bytes>, job: Job)
    ensures SentExactly(hash, files, job, [], [])
  {
  }

  /** The first `k` of the planned chunks were sent since the log was `before`. */
  ghost predicate SentSoFar(hash: Hash, files: map<string, Bytes>, job: Job, plan: seq<int>, k: nat,
                            before: seq<Attempt>, after: seq<Attempt>)
  {
    k <= |plan| && before <= after && SentExactly(hash, files, job, plan[..k], after[|before|..])
  }

  lemma SentNoneYet(hash: Hash, files: map<string, Bytes>, job: Job, plan: seq<int>, log: seq<Attempt>)
    ensures SentSoFar(hash, files, job, plan, 0, log, log)
  {
  }

  lemma SentNext(hash: Hash, files: map<string, Bytes>, job: Job, plan: seq<int>, k: nat,
                 before: seq<Attempt>, earlier: seq<Attempt>, after: seq<Attempt>)
    requires k < |plan| && SentSoFar(hash, files, job, plan, k, before, earlier)
    requires |after| == |earlier| + 1 && after == earlier + [after[|earlier|]]
    requires Accepted(hash, files, job, plan[k], after[|earlier|])
    ensures SentSoFar(hash, files, job, plan, k + 1, before, after)
  {
    SentOneMore(hash, files, job, plan[..k], earlier[|before|..], plan[k], after[|earlier|]);
    assert plan[..k + 1] == plan[..k] + [plan[k]];
    assert after[|before|..] == earlier[|before|..] + [after[|earlier|]];
  }

  lemma SentAll(hash: Hash, files: map<string, Bytes>, job: Job, plan: seq<int>, before: seq<Attempt>, after: seq<Attempt>)
    requires SentSoFar(hash, files, job, plan, |plan|, before, after)
    ensures before <= after && SentExactly(hash, files, job, plan, after[|before|..])
  {
    assert plan[..|plan|] == plan;
  }

  lemma SentOneMore(hash: Hash, files: map<string, Bytes>, job: Job, plan: seq<int>, sent: seq<Attempt>,
                    index: int, attempt: Attempt)
    requires SentExactly(hash, files, job, plan, sent) && Accepted(hash, files, job, index, attempt)
    ensures SentExactly(hash, files, job, plan + [index], sent + [attempt])
  {
    hide Accepted;
  }

  lemma SoundInStore(jobs: map<string, Job>, jobId: string)
    requires StoreValid(jobs) && jobId in jobs
    ensures Sound(jobs[jobId])
  {
  }

  lemma PumpEnds(start: Job, sent: seq<int>, last: Job)
    requires sent + Unsent(last.chunks, 0) == Unsent(start.chunks, 0)
    requires if last.status == Failed then start.status == Failed && |sent| == 1 && Unsent(last.chunks, 0) != []
             else Unsent(last.chunks, 0) == [] && (start.status == Failed ==> |sent| <= 1)
    ensures PumpPlan(start) == sent
  {
    hide Unsent;
  }

  /**
   * A pump of the job `start` that goes on: it sent the chunks `sent`, and what is
   * left follows them; of a failed job it would have stopped after one.
   */
  ghost predicate PumpSoFar(hash: Hash, files: map<string, Bytes>, start: Job, job: Job, sent: seq<int>, log: seq<Attempt>) {
    && Advances(start, job)
    && sent + Unsent(job.chunks, 0) == Unsent(start.chunks, 0)
    && (sent != [] ==> start.status != Failed && Unsent(job.chunks, 0) != [])
    && (job.status == Failed <==> start.status == Failed)
    && SentExactly(hash, files, start, sent, log)
  }

  lemma PumpStarts(hash: Hash, files: map<string, Bytes>, job: Job)
    ensures PumpSoFar(hash, files, job, job, [], [])
  {
    hide Sound, Unsent;
    FlashInterleaving.AdvancesReflexive(job);
    assert [] + Unsent(job.chunks, 0) == Unsent(job.chunks, 0);
  }

  /** The pump finds nothing left, which happens at once or never, and completes the job. */
  lemma PumpFinds(hash: Hash, files: map<string, Bytes>, start: Job, job: Job, after: Job, sent: seq<int>, log: seq<Attempt>)
    requires PumpSoFar(hash, files, start, job, sent, log) && Sound(job)
    requires Unsent(job.chunks, 0) == [] && after == Complete(job, after.updatedAt)
    ensures sent == [] && PumpPlan(start) == [] && Unsent(start.chunks, 0) == []
    ensures SentExactly(hash, files, start, PumpPlan(start), log)
    ensures after.status == Completed && AllMarked(after.chunks)
  {
    hide Sound, Advances, SentExactly, Complete, Unsent;
    PumpTurn(job, after);
  }

  /** The pump sends one more chunk, and stops or goes on. */
  lemma PumpSends(hash: Hash, files: map<string, Bytes>, start: Job, job: Job, after: Job,
                  sent: seq<int>, log: seq<Attempt>, attempt: Attempt)
    requires PumpSoFar(hash, files, start, job, sent, log) && Sound(job)
    requires Unsent(job.chunks, 0) != []
    requires after == MarkTransferred(Begun(job), Unsent(job.chunks, 0)[0], after.updatedAt)
    requires Accepted(hash, files, job, Unsent(job.chunks, 0)[0], attempt) && Advances(start, after)
    ensures |Unsent(after.chunks, 0)| < |Unsent(job.chunks, 0)|
    ensures var sent' := sent + [Unsent(job.chunks, 0)[0]];
            if after.status == Completed || after.status == Failed then
              && PumpPlan(start) == sent' && SentExactly(hash, files, start, sent', log + [attempt])
              && after.status == (if |sent'| == |Unsent(start.chunks, 0)| then Completed else Failed)
              && (after.status == Completed ==> AllMarked(after.chunks))
            else PumpSoFar(hash, files, start, after, sent', log + [attempt])
  {
    hide Sound, Advances, SentExactly, Accepted, Complete, MarkTransferred, Begun, Unsent, AllMarked, PumpPlan;
    var unsent := Unsent(job.chunks, 0);
    var sent' := sent + [unsent[0]];
    PumpTurn(job, after);
    StillAccepted(hash, files, start, job, unsent[0], attempt);
    SentOneMore(hash, files, start, sent, log, unsent[0], attempt);
    assert sent' + unsent[1..] == sent + unsent;
    if after.status == Completed || after.status == Failed {
      PumpEnds(start, sent', after);
    }
  }

  lemma StillIntact(hash: Hash, files: map<string, Bytes>, a: Job, b: Job)
    requires Advances(a, b)
    ensures Intact(hash, files, a) ==> Intact(hash, files, b)
  {
    if Intact(hash, files, a) {
      forall i | 0 <= i < |b.chunks| ensures ReadChunk(hash, files[b.binaryPath], b.chunks[i]).Ok? {
        ReadIgnoresMark(hash, files[b.binaryPath], a.chunks[i], b.chunks[i]);
      }
    }
  }

  lemma ReadIgnoresMark(hash: Hash, file: Bytes, a: Chunk, b: Chunk)
    requires a.(transferred := b.transferred) == b
    ensures ReadChunk(hash, file, a) == ReadChunk(hash, file, b)
  {
  }

  lemma StillAccepted(hash: Hash, files: map<string, Bytes>, a: Job, b: Job, index: int, attempt: Attempt)
    requires Advances(a, b) && Accepted(hash, files, b, index, attempt)
    ensures Accepted(hash, files, a, index, attempt)
  {
    ReadIgnoresMark(hash, files[b.binaryPath], a.chunks[index], b.chunks[index]);
  }

  /** One turn of the pump on a sound job: what is left unsent, and how the status moves. */
  lemma PumpTurn(job: Job, after: Job)
    requires Sound(job)
    requires var unsent := Unsent(job.chunks, 0);
             after == if unsent == [] then Complete(job, after.updatedAt)
                      else MarkTransferred(Begun(job), unsent[0], after.updatedAt)
    ensures var unsent := Unsent(job.chunks, 0);
            if |unsent| <= 1 then after.status == Completed && AllMarked(after.chunks) && Unsent(after.chunks, 0) == []
            else Unsent(after.chunks, 0) == unsent[1..] &&
                 after.status == (if job.status == Queued then Running else job.status) && after.status != Completed
  {
    var unsent := Unsent(job.chunks, 0);
    UnsentEmptyWhenAllMarked(job.chunks);
    if unsent == [] {
      FlashInterleaving.CompleteIsSound(job, after.updatedAt);
    } else {
      BegunSound(job);
      MarkTransferredSound(Begun(job), unsent[0], after.updatedAt);
      MarkingFirstUnsent(job.chunks, 0);
    }
    UnsentEmptyWhenAllMarked(after.chunks);
  }

  lemma BegunSound(job: Job)
    requires Sound(job)
    ensures Sound(Begun(job)) && Begun(job).chunks == job.chunks
    ensures Begun(job).status == if job.status == Queued then Running else job.status
  {
    MarkRunningSound(job, job.updatedAt);
  }

  /** At most the one record named has changed, and it moved forward. */
  ghost predicate MovedOn(before: map<string, Job>, after: map<string, Job>, jobId: string) {
    && before.Keys == after.Keys
    && (forall id :: id in before && id != jobId ==> after[id] == before[id])
    && (jobId in before ==> Advances(before[jobId], after[jobId]))
  }

  lemma MovedAdvances(before: map<string, Job>, after: map<string, Job>, jobId: string)
    requires MovedOn(before, after, jobId) && jobId in before
    ensures jobId in after && Advances(before[jobId], after[jobId])
  {
  }

  lemma NothingMoved(jobs: map<string, Job>, jobId: string)
    ensures MovedOn(jobs, jobs, jobId)
  {
  }

  lemma MovedTwice(a: map<string, Job>, b: map<string, Job>, c: map<string, Job>, jobId: string)
    requires MovedOn(a, b, jobId) && MovedOn(b, c, jobId)
    ensures MovedOn(a, c, jobId)
  {
    hide Advances;
    if jobId in a {
      AdvancesIsTransitive(a[jobId], b[jobId], c[jobId]);
    }
  }

  lemma StoredId(jobs: map<string, Job>, jobId: string)
    requires StoreValid(jobs) && jobId in jobs
    ensures jobs[jobId].id == jobId
  {
  }

  lemma FailedIsLater(before: map<string, Job>, after: map<string, Job>, job: Job, failed: Job)
    requires StoreValid(before) && job.id in before && before[job.id] == job
    requires failed == Fail(job, failed.error, failed.updatedAt)
    requires after == before || after == before[failed.id := failed]
    ensures StoreValid(after) && MovedOn(before, after, job.id)
  {
    FailSound(job, failed.error, failed.updatedAt);
    hide Sound, Advances;
    StoreAdvanced(before, after, failed);
  }

  lemma BegunIsLater(before: map<string, Job>, after: map<string, Job>, job: Job, begun: Job)
    requires StoreValid(before) && job.id in before && before[job.id] == job
    requires begun == MarkRunning(job, begun.updatedAt)
    requires after == before || after == before[begun.id := begun]
    ensures begun.id == job.id && StoreValid(after) && MovedOn(before, after, job.id)
  {
    MarkRunningSound(job, begun.updatedAt);
    hide Sound, Advances;
    StoreAdvanced(before, after, begun);
  }

  lemma BegunKeepsManifest(job: Job, begun: Job)
    requires begun == if job.status == Queued then MarkRunning(job, begun.updatedAt) else job
    ensures begun.chunks == job.chunks && begun.id == job.id && begun.binaryPath == job.binaryPath
  {
  }

  lemma MarkMoves(before: map<string, Job>, after: map<string, Job>, jobId: string)
    requires FlashInterleaving.StoreAdvances(before, after)
    requires after == before || (jobId in before && jobId in after && after == before[jobId := after[jobId]])
    ensures MovedOn(before, after, jobId)
  {
    hide Advances;
    NothingMoved(before, jobId);
  }

  lemma CompletedIsLater(before: map<string, Job>, after: map<string, Job>, job: Job, completed: Job)
    requires StoreValid(before) && job.id in before && before[job.id] == job
    requires completed == Complete(job, completed.updatedAt)
    requires after == before || after == before[completed.id := completed]
    ensures completed.id == job.id && StoreValid(after) && MovedOn(before, after, job.id)
  {
    FlashInterleaving.CompleteIsSound(job, completed.updatedAt);
    hide Sound, Advances;
    StoreAdvanced(before, after, completed);
  }

  lemma IndexesArePositions(jobs: map<string, Job>, jobId: string, i: int)
    requires StoreValid(jobs) && jobId in jobs && 0 <= i < |jobs[jobId].chunks|
    ensures jobs[jobId].chunks[i].index == i
  {
  }

  /** The time a job was set running does not matter once a chunk is marked. */
  lemma MarkIgnoresTime(job: Job, begun: Job, index: int, now: int)
    requires 0 <= index < |job.chunks|
    requires begun == if job.status == Queued then MarkRunning(job, begun.updatedAt) else job
    ensures |begun.chunks| == |job.chunks| && |Begun(job).chunks| == |job.chunks|
    ensures MarkTransferred(begun, index, now) == MarkTransferred(Begun(job), index, now)
  {
    hide MarkAll, ProgressFor;
  }

  lemma MarkTransferredByCases(job: Job, index: nat, now: int)
    requires index < |job.chunks|
    ensures var marked := WithChunkMarked(job, index);
            MarkTransferred(job, index, now).id == job.id == marked.id &&
            MarkTransferred(job, index, now)
            == if marked.transferred >= marked.chunkCount && marked.chunkCount > 0 then Complete(marked, now)
               else marked.(progress := ProgressFor(marked.chunkCount, marked.transferred), updatedAt := now)
  {
  }

  ghost predicate StoreValid(jobs: map<string, Job>) {
    forall id :: id in jobs ==> jobs[id].id == id && Sound(jobs[id])
  }

  /** Saving a later form of a stored record, or nothing, moves the store forward. */
  lemma StoreAdvanced(before: map<string, Job>, after: map<string, Job>, record: Job)
    requires StoreValid(before) && record.id in before
    requires Sound(record) && Advances(before[record.id], record)
    requires after == before || after == before[record.id := record]
    ensures StoreValid(after) && FlashInterleaving.StoreAdvances(before, after)
  {
    FlashInterleaving.StoreAdvancesReflexive(before);
  }

  /** The device has a job that has not failed for a firmware of the product. */
  ghost predicate HasJobFor(store: FirmwareCatalog.Store, jobs: map<string, Job>, productId: string, deviceId: string) {
    exists id :: id in store && store[id].productId == productId && FlashInterleaving.HasFlashJob(jobs, deviceId, id)
  }

  /** The firmware offered to a device of a product: stored, due, and the designated one unless a version is pinned. */
  ghost predicate Offered(
    store: FirmwareCatalog.Store, history: seq<FirmwareCatalog.Effect>, productId: string,
    desired: Option<int>, currentVersion: int, currentFirmware: string, firmwareId: string)
  {
    && firmwareId in store && store[firmwareId].productId == productId
    && FirmwareCatalog.UpdateAvailable(store[firmwareId], desired.Some?, currentVersion, currentFirmware)
    && (desired.None? && FirmwareCatalog.Paired(history) && FirmwareCatalog.LastDesignated(history, productId).Some? ==>
          FirmwareCatalog.LastDesignated(history, productId).value == firmwareId)
  }

  lemma NotDue(store: FirmwareCatalog.Store, productId: string, pinned: bool, currentVersion: int, currentFirmware: string, id: string)
    requires id in store && store[id].productId == productId
    requires !FirmwareCatalog.UpdateAvailable(store[id], pinned, currentVersion, currentFirmware)
    ensures FirmwareCatalog.NothingDue(store, productId, pinned, currentVersion, currentFirmware)
  {
  }

  /** One new job, for a device that had none live for that firmware, leaves at most one live. */
  lemma OneMoreLive(before: map<string, Job>, after: map<string, Job>, jobId: string, deviceId: string, firmwareId: string)
    requires !FlashInterleaving.HasFlashJob(before, deviceId, firmwareId)
    requires forall id :: id in before ==> id in after && after[id] == before[id]
    requires forall id :: id in after && id !in before ==>
      id == jobId && after[id].deviceId == deviceId && after[id].firmwareId == firmwareId
    ensures FlashInterleaving.OneLivePerPair(before) ==> FlashInterleaving.OneLivePerPair(after)
  {
    if FlashInterleaving.OneLivePerPair(before) {
      forall d: string, f: string ensures FlashInterleaving.OneLive(after, d, f) {
        assert FlashInterleaving.OneLive(before, d, f);
      }
    }
  }

  /** The firmware StartDeviceFlash selects: the one referred to, or else the one served. */
  ghost predicate Selected(
    store: FirmwareCatalog.Store, parse: string -> Option<int>, productId: string, reference: string,
    firmware: FirmwareCatalog.ProductFirmware)
  {
    if reference != "" then FirmwareCatalog.Refers(store, parse, productId, reference, firmware)
    else FirmwareCatalog.IsServed(store, productId, firmware)
  }

  lemma SelectedById(
    store: FirmwareCatalog.Store, parse: string -> Option<int>, productId: string, id: string, found: string)
    requires FirmwareCatalog.KeysAreIds(store) && id in store && found in store
    requires Selected(store, parse, productId, id, store[found])
    ensures found == id
  {
  }

  /** The job is for a stored firmware, with the binary and the size its record names. */
  predicate FlashesFirmware(store: FirmwareCatalog.Store, job: Job) {
    && job.firmwareId in store
    && job.binaryPath == store[job.firmwareId].binary.path && job.size == store[job.firmwareId].binary.size
  }

  lemma RecordedSize(pathFor: FirmwareCatalog.PathFor, hash: Hash, history: seq<FirmwareCatalog.Effect>, id: string)
    requires FirmwareCatalog.DistinctPaths(pathFor) && FirmwareCatalog.FilesLegal(pathFor, hash, history)
    requires id in FirmwareCatalog.Execute(history)
    ensures var files, binary := FirmwareCatalog.Files(history), FirmwareCatalog.Execute(history)[id].binary;
            FirmwareCatalog.Described(history, id) ==> binary.path in files && binary.size == |files[binary.path]|
  {
    hide FirmwareCatalog.FilesLegal, FirmwareCatalog.Execute, FirmwareCatalog.Files, FirmwareCatalog.Described;
    if FirmwareCatalog.Described(history, id) {
      FirmwareCatalog.RecordsDescribeTheirFiles(pathFor, hash, history, id);
    }
  }

  /** After a refused transport call the record in hand is stored as failed, or could not be stored. */
  ghost predicate Refused(before: map<string, Job>, after: map<string, Job>, record: Job, err: Error) {
    || (err == StoreFailed && after == before)
    || (err == TransportFailed && exists message, now :: after == before[record.id := Fail(record, message, now)])
  }

  /** The chunks of the stored job are as they were. */
  ghost predicate NothingMarked(before: map<string, Job>, after: map<string, Job>, jobId: string) {
    jobId in before ==> jobId in after && after[jobId].chunks == before[jobId].chunks
  }

  lemma SameMarks(before: map<string, Job>, after: map<string, Job>, jobId: string)
    requires before == after
    ensures NothingMarked(before, after, jobId)
  {
  }

  lemma RefusedFails(before: map<string, Job>, after: map<string, Job>, record: Job, err: Error)
    requires Refused(before, after, record, err)
    ensures err == TransportFailed ==> record.id in after && after[record.id].status == Failed
  {
  }

  lemma RefusedMarksNothing(before: map<string, Job>, begun: map<string, Job>, after: map<string, Job>, record: Job, err: Error)
    requires Refused(begun, after, record, err) && record.id in before && record.id in begun && begun[record.id] == record
    requires record.chunks == before[record.id].chunks
    ensures NothingMarked(before, after, record.id)
    ensures err == TransportFailed ==> record.id in after && after[record.id].status == Failed
  {
  }
}
