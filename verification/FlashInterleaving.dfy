/**
 * Flash-job operations running side by side (internal/firmware/ota.go). Every
 * load, file read, transport call and save is a step of its own, so that a save
 * may write back a record that others have changed since it was loaded.
 */
module FlashInterleaving {
  import opened Basics
  import opened ChunkManifest
  import opened FlashJobs

  /** A chunk the transport accepted. */
  datatype Delivery = Delivery(jobId: string, index: int, data: Bytes)

  /** The binary a job was cut from, and the size it was cut to. */
  datatype Source = Source(image: Bytes, chunkSize: int)

  /** What is only remembered, not stored: where each job came from, and the accepted chunks. */
  datatype Ledger = Ledger(sources: map<string, Source>, delivered: seq<Delivery>)

  /** What follows once a chunk has been sent and marked. */
  datatype Then =
    | Return
    | KeepPumping
    | RetryRest(rest: seq<int>)
    | External // MarkFlashChunkTransferred was called directly

  /** The next step of a running operation, with the record it has in hand. */
  datatype Task =
    | CreateJob(job: Job, image: Bytes)
    | BeginFlash(job: Job)
    | SaveStarted(job: Job, pump: bool)
    | LoadNext(jobId: string, then_: Then)
    | SaveCompleted(job: Job)
    | LoadChunk(jobId: string, index: int, then_: Then)
    | ReadData(job: Job, index: int, then_: Then)
    | SaveBegun(job: Job, index: int, data: Bytes, then_: Then)
    | Send(job: Job, index: int, data: Bytes, then_: Then)
    | LoadMark(jobId: string, index: int, then_: Then)
    | SaveMarked(job: Job, then_: Then)
    | NotifyCompleted(job: Job, then_: Then)
    | SaveFailed(job: Job)

  datatype State = State(jobs: map<string, Job>, files: map<string, Bytes>, ledger: Ledger, tasks: map<nat, Task>)

  datatype Request = Request(id: string, deviceId: string, firmwareId: string, binaryPath: string, size: nat, chunkSize: int)

  datatype Operation =
    | StartDeviceFlash(request: Request)
    | AutomaticUpdate(request: Request, readable: bool) // CheckAndStartProductFirmwareUpdate, once a target is chosen
    | StartFlashJob(jobId: string)
    | PumpFlashJob(jobId: string)
    | SendNextFlashChunk(jobId: string)
    | SendFlashChunk(jobId: string, index: int)
    | RetryMissedFlashChunks(deviceId: string, jobId: string, indexes: seq<int>)
    | AbortDeviceFlash(deviceId: string, jobId: string, message: string)
    | FailFlashJob(jobId: string, message: string)
    | CompleteFlashJob(jobId: string)
    | MarkFlashChunkTransferred(jobId: string, index: int)

  /** `ok` is how the read, the save or the transport call of the step turns out; `now` is the clock. */
  datatype Event =
    | Spawn(pid: nat, op: Operation, now: int)
    | Run(pid: nat, ok: bool, now: int)
    | WriteFile(path: string, contents: Bytes)
    | RemoveFile(path: string)

  const INITIAL := State(map[], map[], Ledger(map[], []), map[])

  function NewJob(hash: Hash, request: Request, image: Bytes, now: int): Job {
    var chunks := Manifest(hash, image, request.chunkSize);
    Job(request.id, request.deviceId, request.firmwareId, request.binaryPath, request.size, request.chunkSize,
        |chunks|, 0, chunks, Queued, 0, "", now)
  }

  /**
   * A job activeFlashJobForDevice may return. It picks the most recently updated
   * such job; which one is left to the event.
   */
  predicate MayBeActive(jobs: map<string, Job>, deviceId: string, jobId: string) {
    jobId in jobs && jobs[jobId].deviceId == deviceId && jobs[jobId].status != Failed
  }

  /** hasFlashJobForDevice */
  predicate HasFlashJob(jobs: map<string, Job>, deviceId: string, firmwareId: string) {
    exists id :: id in jobs && jobs[id].deviceId == deviceId && jobs[id].firmwareId == firmwareId &&
                 jobs[id].status != Failed
  }

  /** The first step of an operation, or none when it returns at once. */
  function FirstTask(hash: Hash, s: State, op: Operation, now: int): Option<Task> {
    match op
    case StartDeviceFlash(request) => StartTask(hash, s, request, now)
    case AutomaticUpdate(request, readable) => // no job is found when the jobs cannot be read
      if readable && HasFlashJob(s.jobs, request.deviceId, request.firmwareId) then None else StartTask(hash, s, request, now)
    case StartFlashJob(id) =>
      if id in s.jobs then Some(SaveStarted(MarkRunning(s.jobs[id], now), false)) else None
    case PumpFlashJob(id) => Some(LoadNext(id, KeepPumping))
    case SendNextFlashChunk(id) => Some(LoadNext(id, Return))
    case SendFlashChunk(id, index) => Some(LoadChunk(id, index, Return))
    case RetryMissedFlashChunks(deviceId, id, indexes) =>
      if !MayBeActive(s.jobs, deviceId, id) || |indexes| == 0 then None
      else if |indexes| > MAX_MISSED_CHUNKS then
        Some(SaveFailed(Fail(s.jobs[id], "too many missed OTA chunks", now)))
      else
        var valid := FirstOccurrences(indexes, |s.jobs[id].chunks|);
        if valid == [] then None else Some(LoadChunk(id, valid[0], RetryRest(valid[1..])))
    case AbortDeviceFlash(deviceId, id, message) =>
      if !MayBeActive(s.jobs, deviceId, id) then None
      else Some(SaveFailed(Fail(s.jobs[id], if message == "" then "device aborted flash" else message, now)))
    case FailFlashJob(id, message) =>
      if id in s.jobs then Some(SaveFailed(Fail(s.jobs[id], message, now))) else None
    case CompleteFlashJob(id) =>
      if id in s.jobs then Some(SaveCompleted(Complete(s.jobs[id], now))) else None
    case MarkFlashChunkTransferred(id, index) => Some(LoadMark(id, index, External))
  }

  function StartTask(hash: Hash, s: State, request: Request, now: int): Option<Task> {
    if request.binaryPath !in s.files || s.files[request.binaryPath] == [] then None
    else
      var image := s.files[request.binaryPath];
      Some(CreateJob(NewJob(hash, request, image, now), image))
  }

  /** What an operation does after a chunk of `job` was sent and marked. */
  function Continue(job: Job, then_: Then): Option<Task> {
    match then_
    case Return => None
    case External => None
    case KeepPumping =>
      if job.status == Completed || job.status == Failed then None else Some(LoadNext(job.id, KeepPumping))
    case RetryRest(rest) =>
      if rest == [] then None else Some(LoadChunk(job.id, rest[0], RetryRest(rest[1..])))
  }

  /** The record a step writes to the store. */
  function SavedBy(jobs: map<string, Job>, task: Task, ok: bool): Option<Job> {
    if !ok then None
    else
      match task
      case CreateJob(job, _) => if job.id in jobs then None else Some(job)
      case SaveStarted(job, _) => Some(job)
      case SaveCompleted(job) => Some(job)
      case SaveBegun(job, _, _, _) => Some(job)
      case SaveMarked(job, _) => Some(job)
      case SaveFailed(job) => Some(job)
      case _ => None
  }

  function LedgerAfter(s: State, task: Task, ok: bool): Ledger {
    match task
    case CreateJob(job, image) =>
      if SavedBy(s.jobs, task, ok).Some? then
        s.ledger.(sources := s.ledger.sources[job.id := Source(image, job.chunkSize)])
      else s.ledger
    case Send(job, index, data, _) =>
      if ok then s.ledger.(delivered := s.ledger.delivered + [Delivery(job.id, index, data)]) else s.ledger
    case _ => s.ledger
  }

  /** What the operation does after a step. */
  function NextTask(hash: Hash, s: State, task: Task, ok: bool, now: int): Option<Task> {
    match task
    case CreateJob(job, _) => if SavedBy(s.jobs, task, ok).Some? then Some(BeginFlash(job)) else None
    case BeginFlash(job) =>
      Some(if ok then SaveStarted(MarkRunning(job, now), true) else SaveFailed(Fail(job, "begin rejected", now)))
    case SaveStarted(job, pump) => if ok && pump then Some(LoadNext(job.id, KeepPumping)) else None
    case LoadNext(id, then_) =>
      if !ok || id !in s.jobs then None
      else
        var job := s.jobs[id];
        var unsent := Unsent(job.chunks, 0);
        if unsent == [] then Some(SaveCompleted(Complete(job, now)))
        else Some(LoadChunk(id, job.chunks[unsent[0]].index, then_))
    case SaveCompleted(job) => None
    case LoadChunk(id, index, then_) =>
      if !ok || id !in s.jobs || index < 0 || index >= |s.jobs[id].chunks| then None
      else Some(ReadData(s.jobs[id], index, then_))
    case ReadData(job, index, then_) =>
      if !ok || job.binaryPath !in s.files || index < 0 || index >= |job.chunks| then None
      else
        var data := ReadChunk(hash, s.files[job.binaryPath], job.chunks[index]);
        if data.Err? then None
        else if job.status == Queued then Some(SaveBegun(MarkRunning(job, now), index, data.value, then_))
        else Some(Send(job, index, data.value, then_))
    case SaveBegun(job, index, data, then_) => if ok then Some(Send(job, index, data, then_)) else None
    case Send(job, index, data, then_) =>
      Some(if ok then LoadMark(job.id, index, then_) else SaveFailed(Fail(job, "chunk rejected", now)))
    case LoadMark(id, index, then_) =>
      if !ok || id !in s.jobs || index < 0 || index >= |s.jobs[id].chunks| then None
      else Some(SaveMarked(MarkTransferred(s.jobs[id], index, now), then_))
    case SaveMarked(job, then_) =>
      if !ok then None
      else if job.status == Completed && then_ != External then Some(NotifyCompleted(job, then_))
      else Continue(job, then_)
    case NotifyCompleted(job, then_) =>
      if ok then Continue(job, then_) else Some(SaveFailed(Fail(job, "completion rejected", now)))
    case SaveFailed(job) => None
  }

  function Stored(jobs: map<string, Job>, saved: Option<Job>): map<string, Job> {
    if saved.Some? then jobs[saved.value.id := saved.value] else jobs
  }

  function WithTask(s: State, pid: nat, task: Option<Task>): State {
    s.(tasks := if task.Some? then s.tasks[pid := task.value] else s.tasks - {pid})
  }

  function Apply(hash: Hash, s: State, e: Event): State {
    match e
    case Spawn(pid, op, now) => if pid in s.tasks then s else WithTask(s, pid, FirstTask(hash, s, op, now))
    case Run(pid, ok, now) =>
      if pid !in s.tasks then s
      else
        var task := s.tasks[pid];
        WithTask(s.(jobs := Stored(s.jobs, SavedBy(s.jobs, task, ok)), ledger := LedgerAfter(s, task, ok)),
                 pid, NextTask(hash, s, task, ok, now))
    case WriteFile(path, contents) => s.(files := s.files[path := contents])
    case RemoveFile(path) => s.(files := s.files - {path})
  }

  function Replay(hash: Hash, s: State, events: seq<Event>): State {
    if events == [] then s
    else Apply(hash, Replay(hash, s, events[..|events| - 1]), events[|events| - 1])
  }

  function Execute(hash: Hash, events: seq<Event>): State {
    Replay(hash, INITIAL, events)
  }

  // ------------------------------------------------- safety under every interleaving

  /** Neither CompleteFlashJob nor MarkFlashChunkTransferred is called from outside. */
  predicate NoDirectMarks(events: seq<Event>) {
    forall k :: 0 <= k < |events| && events[k].Spawn? ==>
      !events[k].op.CompleteFlashJob? && !events[k].op.MarkFlashChunkTransferred?
  }

  ghost predicate WasDelivered(delivered: seq<Delivery>, jobId: string, index: int) {
    exists k :: 0 <= k < |delivered| && delivered[k].jobId == jobId && delivered[k].index == index
  }

  /** The record is a form of the job cut from its image, and each marked chunk was accepted. */
  ghost predicate Backed(hash: Hash, ledger: Ledger, job: Job) {
    && Sound(job)
    && job.id in ledger.sources
    && job.chunkSize == ledger.sources[job.id].chunkSize
    && SameManifest(Manifest(hash, ledger.sources[job.id].image, job.chunkSize), job.chunks)
    && forall i :: 0 <= i < |job.chunks| && job.chunks[i].transferred ==> WasDelivered(ledger.delivered, job.id, i)
  }

  /** `data` is chunk `index` of the binary the job was cut from. */
  ghost predicate IsPieceOf(ledger: Ledger, jobId: string, index: int, data: Bytes) {
    && jobId in ledger.sources
    && var Source(image, chunkSize) := ledger.sources[jobId];
       && 0 <= index < ChunkCount(|image|, EffectiveSize(chunkSize))
       && data == Piece(image, EffectiveSize(chunkSize), index)
  }

  ghost predicate TaskBacked(hash: Hash, ledger: Ledger, task: Task) {
    match task
    case CreateJob(job, image) => image != [] && job.chunks == Manifest(hash, image, job.chunkSize) && Sound(job)
    case BeginFlash(job) => Backed(hash, ledger, job)
    case SaveStarted(job, _) => Backed(hash, ledger, job)
    case LoadNext(_, then_) => then_ != External
    case SaveCompleted(job) => Backed(hash, ledger, job)
    case LoadChunk(_, _, then_) => then_ != External
    case ReadData(job, index, then_) => Backed(hash, ledger, job) && 0 <= index < |job.chunks| && then_ != External
    case SaveBegun(job, index, data, then_) =>
      Backed(hash, ledger, job) && IsPieceOf(ledger, job.id, index, data) && then_ != External
    case Send(job, index, data, then_) =>
      Backed(hash, ledger, job) && IsPieceOf(ledger, job.id, index, data) && then_ != External
    case LoadMark(id, index, then_) => WasDelivered(ledger.delivered, id, index) && then_ != External
    case SaveMarked(job, then_) => Backed(hash, ledger, job) && then_ != External
    case NotifyCompleted(job, then_) => Backed(hash, ledger, job) && then_ != External
    case SaveFailed(job) => Backed(hash, ledger, job)
  }

  /** Every stored record and every record in hand is backed, and every delivery has the image's own bytes. */
  ghost predicate Safe(hash: Hash, s: State) {
    && s.jobs.Keys == s.ledger.sources.Keys
    && (forall id :: id in s.jobs ==> s.jobs[id].id == id && Backed(hash, s.ledger, s.jobs[id]))
    && (forall pid :: pid in s.tasks ==> TaskBacked(hash, s.ledger, s.tasks[pid]))
    && (forall k :: 0 <= k < |s.ledger.delivered| ==>
          var d := s.ledger.delivered[k];
          IsPieceOf(s.ledger, d.jobId, d.index, d.data))
  }

  ghost predicate LedgerGrows(a: Ledger, b: Ledger) {
    && (forall id :: id in a.sources ==> id in b.sources && b.sources[id] == a.sources[id])
    && a.delivered <= b.delivered
  }

  lemma BackedStays(hash: Hash, a: Ledger, b: Ledger, job: Job)
    requires LedgerGrows(a, b) && Backed(hash, a, job)
    ensures Backed(hash, b, job)
  {
    forall i | 0 <= i < |job.chunks| && job.chunks[i].transferred ensures WasDelivered(b.delivered, job.id, i) {
      var k :| 0 <= k < |a.delivered| && a.delivered[k].jobId == job.id && a.delivered[k].index == i;
      assert b.delivered[k] == a.delivered[k];
    }
  }

  lemma TaskBackedStays(hash: Hash, a: Ledger, b: Ledger, task: Task)
    requires LedgerGrows(a, b) && TaskBacked(hash, a, task)
    ensures TaskBacked(hash, b, task)
  {
    hide Backed, Sound, Manifest;
    if task.LoadMark? {
      var k :| 0 <= k < |a.delivered| && a.delivered[k].jobId == task.jobId && a.delivered[k].index == task.index;
      assert b.delivered[k] == a.delivered[k];
    } else if !task.CreateJob? && !task.LoadNext? && !task.LoadChunk? {
      BackedStays(hash, a, b, task.job);
    }
  }

  /** A record that differs in status, error, progress or time only is backed just the same. */
  lemma BackedIgnoresStatus(hash: Hash, ledger: Ledger, job: Job, after: Job)
    requires Backed(hash, ledger, job) && Sound(after)
    requires after.id == job.id && after.chunkSize == job.chunkSize && after.chunks == job.chunks
    ensures Backed(hash, ledger, after)
  {
  }

  lemma MarkRunningBacked(hash: Hash, ledger: Ledger, job: Job, now: int)
    requires Backed(hash, ledger, job)
    ensures Backed(hash, ledger, MarkRunning(job, now))
  {
    MarkRunningSound(job, now);
    BackedIgnoresStatus(hash, ledger, job, MarkRunning(job, now));
  }

  lemma FailBacked(hash: Hash, ledger: Ledger, job: Job, message: string, now: int)
    requires Backed(hash, ledger, job)
    ensures Backed(hash, ledger, Fail(job, message, now))
  {
    FailSound(job, message, now);
    BackedIgnoresStatus(hash, ledger, job, Fail(job, message, now));
  }

  /** completeFlashJob after SendNextFlashChunk found nothing to send marks nothing new. */
  lemma CompleteBacked(hash: Hash, ledger: Ledger, job: Job, now: int)
    requires Backed(hash, ledger, job) && Unsent(job.chunks, 0) == []
    ensures Backed(hash, ledger, Complete(job, now))
  {
    UnsentEmptyWhenAllMarked(job.chunks);
    CompleteSound(job, now);
    assert Complete(job, now).chunks == job.chunks;
    BackedIgnoresStatus(hash, ledger, job, Complete(job, now));
  }

  lemma MarkBacked(hash: Hash, ledger: Ledger, job: Job, index: int, now: int)
    requires Backed(hash, ledger, job) && 0 <= index < |job.chunks| && WasDelivered(ledger.delivered, job.id, index)
    ensures Backed(hash, ledger, MarkTransferred(job, index, now))
  {
    MarkTransferredSound(job, index, now);
  }

  /** What a backed record lets through to the transport is a piece of the job's image. */
  lemma ReadIsPiece(hash: Hash, ledger: Ledger, job: Job, file: Bytes, index: int)
    requires CollisionFree(hash) && Backed(hash, ledger, job) && 0 <= index < |job.chunks|
    requires ReadChunk(hash, file, job.chunks[index]).Ok?
    ensures IsPieceOf(ledger, job.id, index, ReadChunk(hash, file, job.chunks[index]).value)
  {
    var image := ledger.sources[job.id].image;
    var chunk := Manifest(hash, image, job.chunkSize)[index];
    assert chunk.(transferred := job.chunks[index].transferred) == job.chunks[index];
    assert ReadChunk(hash, file, chunk) == ReadChunk(hash, file, job.chunks[index]);
    ReplacedFileCannotLeak(hash, image, job.chunkSize, file, index);
  }

  lemma FirstTaskBacked(hash: Hash, s: State, op: Operation, now: int)
    requires Safe(hash, s) && !op.CompleteFlashJob? && !op.MarkFlashChunkTransferred?
    requires FirstTask(hash, s, op, now).Some?
    ensures TaskBacked(hash, s.ledger, FirstTask(hash, s, op, now).value)
  {
    hide Backed, Sound, Manifest, FirstOccurrences;
    match op
    case StartDeviceFlash(request) =>
      NewJobSound(hash, s.files[request.binaryPath], NewJob(hash, request, s.files[request.binaryPath], now));
    case AutomaticUpdate(request, _) =>
      NewJobSound(hash, s.files[request.binaryPath], NewJob(hash, request, s.files[request.binaryPath], now));
    case StartFlashJob(id) => MarkRunningBacked(hash, s.ledger, s.jobs[id], now);
    case RetryMissedFlashChunks(_, id, indexes) => FailBacked(hash, s.ledger, s.jobs[id], "too many missed OTA chunks", now);
    case AbortDeviceFlash(_, id, message) =>
      FailBacked(hash, s.ledger, s.jobs[id], if message == "" then "device aborted flash" else message, now);
    case FailFlashJob(id, message) => FailBacked(hash, s.ledger, s.jobs[id], message, now);
    case _ =>
  }

  lemma LedgerAfterGrows(s: State, task: Task, ok: bool)
    requires s.jobs.Keys == s.ledger.sources.Keys
    ensures LedgerGrows(s.ledger, LedgerAfter(s, task, ok))
  {
  }

  lemma NextTaskBacked(hash: Hash, s: State, task: Task, ok: bool, now: int)
    requires CollisionFree(hash) && Safe(hash, s) && TaskBacked(hash, s.ledger, task)
    requires NextTask(hash, s, task, ok, now).Some?
    ensures TaskBacked(hash, LedgerAfter(s, task, ok), NextTask(hash, s, task, ok, now).value)
  {
    hide Backed, Sound, Manifest, MarkTransferred, Unsent, ReadChunk, IsPieceOf, Complete, Fail, MarkRunning;
    if task.ReadData? {
      AfterReadBacked(hash, s, task.job, task.index, task.then_, ok, now);
    } else if task.LoadNext? {
      AfterLoadNextBacked(hash, s, task.jobId, task.then_, ok, now);
    } else {
      match task
      case CreateJob(job, image) => NewlyBacked(hash, LedgerAfter(s, task, ok), job, image);
      case BeginFlash(job) =>
        MarkRunningBacked(hash, s.ledger, job, now);
        FailBacked(hash, s.ledger, job, "begin rejected", now);
      case Send(job, index, data, _) =>
        if ok {
          var after := LedgerAfter(s, task, ok);
          assert after.delivered[|s.ledger.delivered|] == Delivery(job.id, index, data);
        } else {
          FailBacked(hash, s.ledger, job, "chunk rejected", now);
        }
      case LoadMark(id, index, _) => MarkBacked(hash, s.ledger, s.jobs[id], index, now);
      case NotifyCompleted(job, _) => FailBacked(hash, s.ledger, job, "completion rejected", now);
      case _ =>
    }
  }

  lemma AfterReadBacked(hash: Hash, s: State, job: Job, index: int, then_: Then, ok: bool, now: int)
    requires CollisionFree(hash) && TaskBacked(hash, s.ledger, ReadData(job, index, then_))
    requires NextTask(hash, s, ReadData(job, index, then_), ok, now).Some?
    ensures TaskBacked(hash, s.ledger, NextTask(hash, s, ReadData(job, index, then_), ok, now).value)
  {
    hide Backed, ReadChunk, IsPieceOf, MarkRunning;
    MarkRunningBacked(hash, s.ledger, job, now);
    ReadIsPiece(hash, s.ledger, job, s.files[job.binaryPath], index);
    MarkRunningKeepsId(job, now);
  }

  lemma AfterLoadNextBacked(hash: Hash, s: State, jobId: string, then_: Then, ok: bool, now: int)
    requires Safe(hash, s) && TaskBacked(hash, s.ledger, LoadNext(jobId, then_))
    requires NextTask(hash, s, LoadNext(jobId, then_), ok, now).Some?
    ensures TaskBacked(hash, s.ledger, NextTask(hash, s, LoadNext(jobId, then_), ok, now).value)
  {
    hide Backed, Complete, Unsent;
    if Unsent(s.jobs[jobId].chunks, 0) == [] {
      CompleteBacked(hash, s.ledger, s.jobs[jobId], now);
    }
  }

  lemma MarkRunningKeepsId(job: Job, now: int)
    ensures MarkRunning(job, now).id == job.id
  {
  }

  lemma NewlyBacked(hash: Hash, ledger: Ledger, job: Job, image: Bytes)
    requires Sound(job) && image != [] && job.chunks == Manifest(hash, image, job.chunkSize)
    requires job.id in ledger.sources && ledger.sources[job.id] == Source(image, job.chunkSize)
    ensures Backed(hash, ledger, job)
  {
    ManifestPartitions(hash, image, job.chunkSize);
  }

  lemma SavedIsBacked(hash: Hash, s: State, task: Task, ok: bool)
    requires TaskBacked(hash, s.ledger, task) && SavedBy(s.jobs, task, ok).Some?
    requires s.jobs.Keys == s.ledger.sources.Keys
    ensures var job := SavedBy(s.jobs, task, ok).value;
            Backed(hash, LedgerAfter(s, task, ok), job)
    ensures LedgerAfter(s, task, ok).sources.Keys == Stored(s.jobs, SavedBy(s.jobs, task, ok)).Keys
  {
    hide Sound, Manifest;
    if task.CreateJob? {
      NewlyBacked(hash, LedgerAfter(s, task, ok), task.job, task.image);
    }
  }

  lemma RunKeepsSafe(hash: Hash, s: State, pid: nat, ok: bool, now: int)
    requires CollisionFree(hash) && Safe(hash, s) && pid in s.tasks
    ensures Safe(hash, Apply(hash, s, Run(pid, ok, now)))
  {
    hide Backed, TaskBacked, NextTask, IsPieceOf, SavedBy, LedgerAfter;
    var task := s.tasks[pid];
    var after := Apply(hash, s, Run(pid, ok, now));
    LedgerAfterGrows(s, task, ok);
    forall id | id in s.jobs ensures Backed(hash, after.ledger, s.jobs[id]) {
      BackedStays(hash, s.ledger, after.ledger, s.jobs[id]);
    }
    if SavedBy(s.jobs, task, ok).Some? {
      SavedIsBacked(hash, s, task, ok);
    } else {
      NothingSavedKeepsSources(s, task, ok);
    }
    if NextTask(hash, s, task, ok, now).Some? {
      NextTaskBacked(hash, s, task, ok, now);
    }
    forall p | p in after.tasks ensures TaskBacked(hash, after.ledger, after.tasks[p]) {
      if p != pid {
        TaskBackedStays(hash, s.ledger, after.ledger, s.tasks[p]);
      }
    }
    DeliveriesStayPieces(hash, s, task, ok);
  }

  lemma NothingSavedKeepsSources(s: State, task: Task, ok: bool)
    requires SavedBy(s.jobs, task, ok).None?
    ensures LedgerAfter(s, task, ok).sources == s.ledger.sources
  {
  }

  lemma DeliveriesStayPieces(hash: Hash, s: State, task: Task, ok: bool)
    requires Safe(hash, s) && TaskBacked(hash, s.ledger, task)
    ensures var after := LedgerAfter(s, task, ok);
            forall k :: 0 <= k < |after.delivered| ==>
              var d := after.delivered[k];
              IsPieceOf(after, d.jobId, d.index, d.data)
  {
    hide Backed, Sound, Manifest, Piece;
    LedgerAfterGrows(s, task, ok);
    var after := LedgerAfter(s, task, ok);
    forall k | 0 <= k < |after.delivered|
      ensures var d := after.delivered[k]; IsPieceOf(after, d.jobId, d.index, d.data)
    {
      if k < |s.ledger.delivered| {
        assert after.delivered[k] == s.ledger.delivered[k];
      }
    }
  }

  lemma SpawnKeepsSafe(hash: Hash, s: State, pid: nat, op: Operation, now: int)
    requires Safe(hash, s) && !op.CompleteFlashJob? && !op.MarkFlashChunkTransferred?
    ensures Safe(hash, Apply(hash, s, Spawn(pid, op, now)))
  {
    hide Backed, TaskBacked, FirstTask, IsPieceOf;
    if FirstTask(hash, s, op, now).Some? {
      FirstTaskBacked(hash, s, op, now);
    }
  }

  lemma {:induction false} EveryRunIsSafe(hash: Hash, events: seq<Event>)
    requires CollisionFree(hash) && NoDirectMarks(events)
    ensures Safe(hash, Execute(hash, events))
  {
    hide Backed, TaskBacked, IsPieceOf, FirstTask, NextTask, SavedBy, LedgerAfter;
    if events != [] {
      var s, e := Execute(hash, events[..|events| - 1]), events[|events| - 1];
      EveryRunIsSafe(hash, events[..|events| - 1]);
      match e
      case Spawn(pid, op, now) => SpawnKeepsSafe(hash, s, pid, op, now);
      case Run(pid, ok, now) =>
        if pid in s.tasks {
          RunKeepsSafe(hash, s, pid, ok, now);
        }
      case _ =>
    }
  }

  /**
   * However pumps, retries, aborts, restarts and file replacements interleave, and
   * whichever saves and transport calls fail: a chunk is marked only if the
   * transport accepted it, a completed job had all of its chunks accepted, and every
   * accepted chunk has exactly the bytes of the binary the job was cut from.
   */
  lemma MarkedMeansAccepted(hash: Hash, events: seq<Event>, jobId: string)
    requires CollisionFree(hash) && NoDirectMarks(events)
    requires jobId in Execute(hash, events).jobs
    ensures var s := Execute(hash, events);
            var job := s.jobs[jobId];
            && jobId in s.ledger.sources && job.chunkSize == s.ledger.sources[jobId].chunkSize
            && |job.chunks| == ChunkCount(|s.ledger.sources[jobId].image|, EffectiveSize(job.chunkSize)) > 0
            && (forall i :: 0 <= i < |job.chunks| && (job.chunks[i].transferred || job.status == Completed) ==>
                  WasDelivered(s.ledger.delivered, jobId, i))
            && (forall k :: 0 <= k < |s.ledger.delivered| && s.ledger.delivered[k].jobId == jobId ==>
                  IsPieceOf(s.ledger, jobId, s.ledger.delivered[k].index, s.ledger.delivered[k].data))
  {
    EveryRunIsSafe(hash, events);
    hide Execute, Manifest, IsPieceOf;
    assert Backed(hash, Execute(hash, events).ledger, Execute(hash, events).jobs[jobId]);
  }

  // ------------------------------------------------- what every run keeps

  /** The record in hand is a sound record of a stored job. */
  ghost predicate Genuine(jobs: map<string, Job>, job: Job) {
    Sound(job) && job.id in jobs && SameFlash(jobs[job.id], job)
  }

  ghost predicate TaskGenuine(jobs: map<string, Job>, task: Task) {
    match task
    case CreateJob(job, _) => Sound(job)
    case LoadNext(_, _) => true
    case LoadChunk(_, _, _) => true
    case LoadMark(_, _, _) => true
    case _ => Genuine(jobs, task.job)
  }

  ghost predicate WellFormed(s: State) {
    && (forall id :: id in s.jobs ==> s.jobs[id].id == id && Sound(s.jobs[id]))
    && (forall pid :: pid in s.tasks ==> TaskGenuine(s.jobs, s.tasks[pid]))
  }

  /** Every job is still there, for the same flash. */
  ghost predicate SameFlashes(a: map<string, Job>, b: map<string, Job>) {
    forall id :: id in a ==> id in b && SameFlash(a[id], b[id])
  }

  lemma SameFlashReflexive(job: Job)
    ensures SameFlash(job, job)
  {
  }

  lemma SameFlashFurther(a: Job, b: Job, c: Job)
    requires SameFlash(a, b) && (SameFlash(b, c) || SameFlash(c, b))
    ensures SameFlash(a, c)
  {
  }

  lemma SameFlashBack(a: Job, b: Job, c: Job)
    requires SameFlash(a, b) && SameFlash(a, c)
    ensures SameFlash(b, c)
  {
  }

  lemma GenuineFurther(jobs: map<string, Job>, job: Job, after: Job)
    requires Genuine(jobs, job) && Sound(after) && Advances(job, after)
    ensures Genuine(jobs, after)
  {
    hide Sound;
    SameFlashFurther(jobs[job.id], job, after);
  }

  lemma StoredIsGenuine(jobs: map<string, Job>, id: string)
    requires id in jobs && jobs[id].id == id && Sound(jobs[id])
    ensures Genuine(jobs, jobs[id])
  {
    hide Sound;
    SameFlashReflexive(jobs[id]);
  }

  lemma TaskStaysGenuine(a: map<string, Job>, b: map<string, Job>, task: Task)
    requires TaskGenuine(a, task) && SameFlashes(a, b)
    ensures TaskGenuine(b, task)
  {
    hide Sound, SameFlash;
    if !task.CreateJob? && !task.LoadNext? && !task.LoadChunk? && !task.LoadMark? {
      SameFlashBack(a[task.job.id], b[task.job.id], task.job);
    }
  }

  lemma FirstTaskGenuine(hash: Hash, s: State, op: Operation, now: int)
    requires WellFormed(s) && FirstTask(hash, s, op, now).Some?
    ensures TaskGenuine(s.jobs, FirstTask(hash, s, op, now).value)
  {
    hide Sound, Advances, SameFlash, Manifest, FirstOccurrences, Genuine;
    match op
    case StartDeviceFlash(request) =>
      NewJobSound(hash, s.files[request.binaryPath], NewJob(hash, request, s.files[request.binaryPath], now));
    case AutomaticUpdate(request, _) =>
      NewJobSound(hash, s.files[request.binaryPath], NewJob(hash, request, s.files[request.binaryPath], now));
    case StartFlashJob(id) =>
      MarkRunningSound(s.jobs[id], now);
      ChangedIsGenuine(s.jobs, id, MarkRunning(s.jobs[id], now));
    case RetryMissedFlashChunks(_, id, indexes) =>
      FailSound(s.jobs[id], "too many missed OTA chunks", now);
      ChangedIsGenuine(s.jobs, id, Fail(s.jobs[id], "too many missed OTA chunks", now));
    case AbortDeviceFlash(_, id, message) =>
      var text := if message == "" then "device aborted flash" else message;
      FailSound(s.jobs[id], text, now);
      ChangedIsGenuine(s.jobs, id, Fail(s.jobs[id], text, now));
    case FailFlashJob(id, message) =>
      FailSound(s.jobs[id], message, now);
      ChangedIsGenuine(s.jobs, id, Fail(s.jobs[id], message, now));
    case CompleteFlashJob(id) =>
      CompleteIsSound(s.jobs[id], now);
      ChangedIsGenuine(s.jobs, id, Complete(s.jobs[id], now));
    case _ =>
  }

  lemma ChangedIsGenuine(jobs: map<string, Job>, id: string, after: Job)
    requires id in jobs && jobs[id].id == id && Sound(jobs[id]) && Sound(after) && Advances(jobs[id], after)
    ensures Genuine(jobs, after)
  {
    hide Sound;
    StoredIsGenuine(jobs, id);
    GenuineFurther(jobs, jobs[id], after);
  }

  lemma CompleteIsSound(job: Job, now: int)
    requires Sound(job)
    ensures Sound(Complete(job, now)) && Advances(job, Complete(job, now)) && Complete(job, now).id == job.id
  {
    CompleteSound(job, now);
  }

  lemma MarkKeepsId(job: Job, index: nat, now: int)
    requires index < |job.chunks|
    ensures MarkTransferred(job, index, now).id == job.id
  {
  }

  lemma AdvancesReflexive(job: Job)
    ensures Advances(job, job)
  {
  }

  /** A step stores a record of the same flash, or a new job. */
  lemma SavedSameFlash(s: State, task: Task, ok: bool)
    requires WellFormed(s) && TaskGenuine(s.jobs, task)
    ensures var jobs := Stored(s.jobs, SavedBy(s.jobs, task, ok));
            && SameFlashes(s.jobs, jobs)
            && forall id :: id in jobs ==> jobs[id].id == id && Sound(jobs[id])
  {
    hide Sound, SameFlash;
    forall id | id in s.jobs ensures SameFlash(s.jobs[id], s.jobs[id]) {
      SameFlashReflexive(s.jobs[id]);
    }
  }

  lemma NextTaskGenuine(hash: Hash, s: State, task: Task, ok: bool, now: int)
    requires WellFormed(s) && TaskGenuine(s.jobs, task) && NextTask(hash, s, task, ok, now).Some?
    ensures TaskGenuine(Stored(s.jobs, SavedBy(s.jobs, task, ok)), NextTask(hash, s, task, ok, now).value)
  {
    hide Sound, SameFlash, Advances, MarkTransferred, Unsent, ReadChunk, Complete, Fail, MarkRunning, SameFlashes;
    SavedSameFlash(s, task, ok);
    var jobs := Stored(s.jobs, SavedBy(s.jobs, task, ok));
    match task
    case CreateJob(job, _) => StoredIsGenuine(jobs, job.id);
    case BeginFlash(job) =>
      MarkRunningSound(job, now);
      FailSound(job, "begin rejected", now);
      GenuineFurther(jobs, job, MarkRunning(job, now));
      GenuineFurther(jobs, job, Fail(job, "begin rejected", now));
    case LoadNext(id, _) =>
      CompleteIsSound(s.jobs[id], now);
      ChangedIsGenuine(jobs, id, Complete(s.jobs[id], now));
    case LoadChunk(id, _, _) => StoredIsGenuine(jobs, id);
    case ReadData(job, _, _) =>
      MarkRunningSound(job, now);
      GenuineFurther(jobs, job, MarkRunning(job, now));
    case Send(job, _, _, _) =>
      FailSound(job, "chunk rejected", now);
      GenuineFurther(jobs, job, Fail(job, "chunk rejected", now));
    case LoadMark(id, index, _) =>
      MarkTransferredSound(s.jobs[id], index, now);
      ChangedIsGenuine(jobs, id, MarkTransferred(s.jobs[id], index, now));
    case SaveBegun(job, _, _, _) => TaskStaysGenuine(s.jobs, jobs, task);
    case SaveMarked(job, _) => TaskStaysGenuine(s.jobs, jobs, task);
    case NotifyCompleted(job, _) =>
      FailSound(job, "completion rejected", now);
      GenuineFurther(jobs, job, Fail(job, "completion rejected", now));
    case _ =>
  }

  lemma EventKeepsWellFormed(hash: Hash, s: State, e: Event)
    requires WellFormed(s)
    ensures WellFormed(Apply(hash, s, e)) && SameFlashes(s.jobs, Apply(hash, s, e).jobs)
  {
    hide Sound, SameFlash, NextTask, FirstTask, SavedBy, LedgerAfter, TaskGenuine;
    forall id | id in s.jobs ensures SameFlash(s.jobs[id], s.jobs[id]) {
      SameFlashReflexive(s.jobs[id]);
    }
    match e
    case Spawn(pid, op, now) =>
      if FirstTask(hash, s, op, now).Some? {
        FirstTaskGenuine(hash, s, op, now);
      }
    case Run(pid, ok, now) =>
      if pid in s.tasks {
        RunKeepsWellFormed(hash, s, pid, ok, now);
      }
    case _ =>
  }

  lemma RunKeepsWellFormed(hash: Hash, s: State, pid: nat, ok: bool, now: int)
    requires WellFormed(s) && pid in s.tasks
    ensures WellFormed(Apply(hash, s, Run(pid, ok, now))) && SameFlashes(s.jobs, Apply(hash, s, Run(pid, ok, now)).jobs)
  {
    hide Sound, SameFlashes, NextTask, SavedBy, LedgerAfter, TaskGenuine;
    var task, after := s.tasks[pid], Apply(hash, s, Run(pid, ok, now));
    SavedSameFlash(s, task, ok);
    if NextTask(hash, s, task, ok, now).Some? {
      NextTaskGenuine(hash, s, task, ok, now);
    }
    forall p | p in after.tasks && p != pid ensures TaskGenuine(after.jobs, after.tasks[p]) {
      TaskStaysGenuine(s.jobs, after.jobs, s.tasks[p]);
    }
  }

  lemma {:induction false} EveryRunIsWellFormed(hash: Hash, events: seq<Event>)
    ensures WellFormed(Execute(hash, events))
    decreases |events|
  {
    hide WellFormed, Apply;
    if events == [] {
      NothingIsWellFormed();
    } else {
      EveryRunIsWellFormed(hash, events[..|events| - 1]);
      EventKeepsWellFormed(hash, Execute(hash, events[..|events| - 1]), events[|events| - 1]);
    }
  }

  lemma NothingIsWellFormed()
    ensures WellFormed(INITIAL)
  {
  }

  /**
   * Under every interleaving of all operations, with any failures: a stored job is
   * never removed, its count, progress and status agree with its marks, and its
   * device, firmware, size and chunks never change.
   */
  lemma {:induction false} StoredJobsAreSound(hash: Hash, events: seq<Event>, n: nat, jobId: string)
    requires n <= |events| && jobId in Execute(hash, events[..n]).jobs
    ensures jobId in Execute(hash, events).jobs
    ensures Sound(Execute(hash, events).jobs[jobId])
    ensures SameFlash(Execute(hash, events[..n]).jobs[jobId], Execute(hash, events).jobs[jobId])
    decreases |events|
  {
    hide Sound, SameFlash, TaskGenuine, Apply;
    EveryRunIsWellFormed(hash, events);
    if n == |events| {
      assert events[..n] == events;
      SameFlashReflexive(Execute(hash, events).jobs[jobId]);
    } else {
      var before := events[..|events| - 1];
      assert before[..n] == events[..n];
      StoredJobsAreSound(hash, before, n, jobId);
      EveryRunIsWellFormed(hash, before);
      EventKeepsWellFormed(hash, Execute(hash, before), events[|events| - 1]);
      SameFlashFurther(Execute(hash, events[..n]).jobs[jobId], Execute(hash, before).jobs[jobId], Execute(hash, events).jobs[jobId]);
    }
  }

  // ------------------------------------------------- one operation at a time on a job

  /** The job a task works for. */
  function JobOf(task: Task): string {
    match task
    case LoadNext(id, _) => id
    case LoadChunk(id, _, _) => id
    case LoadMark(id, _, _) => id
    case _ => task.job.id
  }

  function JobOfOperation(op: Operation): string {
    match op
    case StartDeviceFlash(request) => request.id
    case AutomaticUpdate(request, _) => request.id
    case _ => op.jobId
  }

  /** No operation on the job starts while another one works for it, whatever happens to other jobs. */
  ghost predicate OneAtATime(hash: Hash, events: seq<Event>, jobId: string) {
    forall k :: 0 <= k < |events| && events[k].Spawn? && JobOfOperation(events[k].op) == jobId ==>
      NoneWorksFor(Execute(hash, events[..k]), jobId)
  }

  ghost predicate NoneWorksFor(s: State, jobId: string) {
    forall pid :: pid in s.tasks ==> JobOf(s.tasks[pid]) != jobId
  }

  /** The record in hand is a later form of the stored one. */
  ghost predicate TaskAhead(jobs: map<string, Job>, task: Task) {
    match task
    case CreateJob(_, _) => true
    case LoadNext(_, _) => true
    case LoadChunk(_, _, _) => true
    case LoadMark(_, _, _) => true
    case _ => task.job.id in jobs && Advances(jobs[task.job.id], task.job)
  }

  ghost predicate Orderly(s: State, jobId: string) {
    && WellFormed(s)
    && (forall p, q :: p in s.tasks && q in s.tasks && JobOf(s.tasks[p]) == jobId == JobOf(s.tasks[q]) ==> p == q)
    && (forall pid :: pid in s.tasks && JobOf(s.tasks[pid]) == jobId ==> TaskAhead(s.jobs, s.tasks[pid]))
  }

  ghost predicate StoreAdvances(a: map<string, Job>, b: map<string, Job>) {
    forall id :: id in a ==> id in b && Advances(a[id], b[id])
  }

  lemma StoreAdvancesReflexive(a: map<string, Job>)
    ensures StoreAdvances(a, a)
  {
  }

  lemma FirstTaskAhead(hash: Hash, s: State, op: Operation, now: int)
    requires WellFormed(s) && FirstTask(hash, s, op, now).Some?
    ensures TaskAhead(s.jobs, FirstTask(hash, s, op, now).value)
    ensures JobOf(FirstTask(hash, s, op, now).value) == JobOfOperation(op)
  {
    hide Sound, Advances, Manifest, FirstOccurrences, TaskGenuine;
    match op
    case StartFlashJob(id) => MarkRunningSound(s.jobs[id], now);
    case RetryMissedFlashChunks(_, id, indexes) => FailSound(s.jobs[id], "too many missed OTA chunks", now);
    case AbortDeviceFlash(_, id, message) =>
      FailSound(s.jobs[id], if message == "" then "device aborted flash" else message, now);
    case FailFlashJob(id, message) => FailSound(s.jobs[id], message, now);
    case CompleteFlashJob(id) => CompleteIsSound(s.jobs[id], now);
    case _ =>
  }

  /** A task stores records of its own job only, and goes on for the same job. */
  lemma StaysWithItsJob(hash: Hash, s: State, task: Task, ok: bool, now: int)
    requires WellFormed(s)
    ensures SavedBy(s.jobs, task, ok).Some? ==> SavedBy(s.jobs, task, ok).value.id == JobOf(task)
    ensures NextTask(hash, s, task, ok, now).Some? ==> JobOf(NextTask(hash, s, task, ok, now).value) == JobOf(task)
  {
    hide Sound, Unsent, ReadChunk, MarkAll, ProgressFor, MarkTransferred, TaskGenuine;
    if task.LoadMark? && task.jobId in s.jobs && 0 <= task.index < |s.jobs[task.jobId].chunks| {
      MarkKeepsId(s.jobs[task.jobId], task.index, now);
    }
  }

  /** A step of a task whose record is ahead stores a later form, and keeps the record in hand ahead. */
  lemma StepAdvances(hash: Hash, s: State, task: Task, ok: bool, now: int)
    requires WellFormed(s) && TaskGenuine(s.jobs, task) && TaskAhead(s.jobs, task)
    ensures var jobs := Stored(s.jobs, SavedBy(s.jobs, task, ok));
            && StoreAdvances(s.jobs, jobs)
            && var next := NextTask(hash, s, task, ok, now);
               next.Some? ==> TaskAhead(jobs, next.value)
  {
    hide Sound, Advances, NextTask, TaskGenuine;
    forall id | id in s.jobs ensures Advances(s.jobs[id], s.jobs[id]) {
      AdvancesReflexive(s.jobs[id]);
    }
    if NextTask(hash, s, task, ok, now).Some? {
      NextTaskAhead(hash, s, task, ok, now);
    }
  }

  lemma NextTaskAhead(hash: Hash, s: State, task: Task, ok: bool, now: int)
    requires WellFormed(s) && TaskGenuine(s.jobs, task) && TaskAhead(s.jobs, task) && NextTask(hash, s, task, ok, now).Some?
    ensures TaskAhead(Stored(s.jobs, SavedBy(s.jobs, task, ok)), NextTask(hash, s, task, ok, now).value)
  {
    hide Sound, SameFlash, Advances, MarkTransferred, Unsent, ReadChunk, Complete, ProgressFor, MarkAll;
    if SavedBy(s.jobs, task, ok).Some? {
      AdvancesReflexive(SavedBy(s.jobs, task, ok).value);
    }
    match task
    case BeginFlash(job) =>
      MarkRunningSound(job, now);
      FailSound(job, "begin rejected", now);
      AdvancesIsTransitive(s.jobs[job.id], job, MarkRunning(job, now));
      AdvancesIsTransitive(s.jobs[job.id], job, Fail(job, "begin rejected", now));
    case LoadNext(id, _) => CompleteIsSound(s.jobs[id], now);
    case LoadChunk(id, _, _) => AdvancesReflexive(s.jobs[id]);
    case ReadData(job, _, _) =>
      MarkRunningSound(job, now);
      AdvancesIsTransitive(s.jobs[job.id], job, MarkRunning(job, now));
    case Send(job, _, _, _) =>
      FailSound(job, "chunk rejected", now);
      AdvancesIsTransitive(s.jobs[job.id], job, Fail(job, "chunk rejected", now));
    case LoadMark(id, index, _) =>
      MarkTransferredSound(s.jobs[id], index, now);
      MarkKeepsId(s.jobs[id], index, now);
    case NotifyCompleted(job, _) =>
      FailSound(job, "completion rejected", now);
      AdvancesIsTransitive(s.jobs[job.id], job, Fail(job, "completion rejected", now));
    case _ =>
  }

  lemma EventAdvances(hash: Hash, s: State, e: Event, jobId: string)
    requires Orderly(s, jobId) && (e.Spawn? && JobOfOperation(e.op) == jobId ==> NoneWorksFor(s, jobId))
    ensures Orderly(Apply(hash, s, e), jobId)
    ensures jobId in s.jobs ==> jobId in Apply(hash, s, e).jobs && Advances(s.jobs[jobId], Apply(hash, s, e).jobs[jobId])
  {
    hide Sound, SameFlashes, Advances, NextTask, FirstTask, SavedBy, LedgerAfter, TaskAhead, TaskGenuine, JobOf;
    EventKeepsWellFormed(hash, s, e);
    if jobId in s.jobs {
      AdvancesReflexive(s.jobs[jobId]);
    }
    match e
    case Spawn(pid, op, now) =>
      if FirstTask(hash, s, op, now).Some? {
        FirstTaskAhead(hash, s, op, now);
      }
    case Run(pid, ok, now) =>
      if pid in s.tasks {
        RunAdvances(hash, s, pid, ok, now, jobId);
      }
    case _ =>
  }

  lemma RunAdvances(hash: Hash, s: State, pid: nat, ok: bool, now: int, jobId: string)
    requires Orderly(s, jobId) && pid in s.tasks
    ensures var after := Apply(hash, s, Run(pid, ok, now));
            && (WellFormed(after) ==> Orderly(after, jobId))
            && (jobId in s.jobs ==> jobId in after.jobs && Advances(s.jobs[jobId], after.jobs[jobId]))
  {
    hide Sound, Advances, NextTask, SavedBy, LedgerAfter, TaskAhead, TaskGenuine, JobOf;
    var task, after := s.tasks[pid], Apply(hash, s, Run(pid, ok, now));
    StaysWithItsJob(hash, s, task, ok, now);
    if JobOf(task) == jobId {
      StepAdvances(hash, s, task, ok, now);
    } else {
      if jobId in s.jobs {
        AdvancesReflexive(s.jobs[jobId]);
      }
      forall p | p in s.tasks && p != pid && JobOf(s.tasks[p]) == jobId ensures TaskAhead(after.jobs, s.tasks[p]) {
        StaysAhead(s.jobs, after.jobs, s.tasks[p]);
      }
    }
  }

  lemma StaysAhead(a: map<string, Job>, b: map<string, Job>, task: Task)
    requires TaskAhead(a, task) && (JobOf(task) in a ==> JobOf(task) in b && b[JobOf(task)] == a[JobOf(task)])
    ensures TaskAhead(b, task)
  {
    hide Advances;
  }

  lemma {:induction false} RunAdvancesJob(hash: Hash, events: seq<Event>, n: nat, jobId: string)
    requires OneAtATime(hash, events, jobId) && n <= |events|
    ensures Orderly(Execute(hash, events), jobId)
    ensures jobId in Execute(hash, events[..n]).jobs ==>
              && jobId in Execute(hash, events).jobs
              && Advances(Execute(hash, events[..n]).jobs[jobId], Execute(hash, events).jobs[jobId])
    decreases |events|
  {
    hide Advances, Orderly, NoneWorksFor, Apply;
    if events == [] {
      NothingIsOrderly(jobId);
      assert events[..n] == events;
    } else {
      var before := events[..|events| - 1];
      assert forall k :: 0 <= k <= |before| ==> before[..k] == events[..k];
      assert forall k :: 0 <= k < |before| ==> before[k] == events[k];
      var m := if n == |events| then 0 else n;
      RunAdvancesJob(hash, before, m, jobId);
      EventAdvances(hash, Execute(hash, before), events[|events| - 1], jobId);
      if n == |events| {
        assert events[..n] == events;
        if jobId in Execute(hash, events).jobs {
          AdvancesReflexive(Execute(hash, events).jobs[jobId]);
        }
      } else if jobId in Execute(hash, events[..n]).jobs {
        AdvancesIsTransitive(Execute(hash, events[..n]).jobs[jobId], Execute(hash, before).jobs[jobId], Execute(hash, events).jobs[jobId]);
      }
    }
  }

  lemma NothingIsOrderly(jobId: string)
    ensures Orderly(INITIAL, jobId) && INITIAL.jobs == map[]
  {
  }

  /**
   * While the operations on a job run one after another, with any failures, and
   * whatever operations on other jobs run meanwhile, the job keeps its marks and
   * never loses transferred chunks or progress.
   */
  lemma JobsKeepProgress(hash: Hash, events: seq<Event>, n: nat, jobId: string)
    requires OneAtATime(hash, events, jobId) && n <= |events|
    requires jobId in Execute(hash, events[..n]).jobs
    ensures jobId in Execute(hash, events).jobs
    ensures var before, after := Execute(hash, events[..n]).jobs[jobId], Execute(hash, events).jobs[jobId];
            && Advances(before, after)
            && before.transferred <= after.transferred && before.progress <= after.progress
  {
    hide Sound, Advances, Execute;
    RunAdvancesJob(hash, events, n, jobId);
    StoredJobsAreSound(hash, events, n, jobId);
    assert events[..n][..n] == events[..n];
    StoredJobsAreSound(hash, events[..n], n, jobId);
    AdvancingNeverLosesProgress(Execute(hash, events[..n]).jobs[jobId], Execute(hash, events).jobs[jobId]);
  }

  // ------------------------------------------------- one live job

  predicate Live(jobs: map<string, Job>, id: string) {
    id in jobs && jobs[id].status != Failed
  }

  predicate OfPair(job: Job, deviceId: string, firmwareId: string) {
    job.deviceId == deviceId && job.firmwareId == firmwareId
  }

  /** At most one job for the device and the firmware has not failed. */
  ghost predicate OneLive(jobs: map<string, Job>, deviceId: string, firmwareId: string) {
    forall a, b ::
      (Live(jobs, a) && Live(jobs, b) && OfPair(jobs[a], deviceId, firmwareId) && OfPair(jobs[b], deviceId, firmwareId)) ==> a == b
  }

  ghost predicate OneLivePerPair(jobs: map<string, Job>) {
    forall deviceId, firmwareId :: OneLive(jobs, deviceId, firmwareId)
  }

  /** The task may store the job as one that has not failed: only the last step of a failing operation cannot. */
  predicate MayRevive(task: Task, id: string) {
    !task.CreateJob? && !task.SaveFailed? && JobOf(task) == id
  }

  /** The job is live, or a task works for it that may make it live. */
  ghost predicate Busy(s: State, id: string) {
    id in s.jobs && (s.jobs[id].status != Failed || exists pid :: pid in s.tasks && MayRevive(s.tasks[pid], id))
  }

  ghost predicate BusyFor(s: State, id: string, deviceId: string, firmwareId: string) {
    Busy(s, id) && OfPair(s.jobs[id], deviceId, firmwareId)
  }

  predicate Creating(s: State, pid: nat, deviceId: string, firmwareId: string) {
    pid in s.tasks && s.tasks[pid].CreateJob? && OfPair(s.tasks[pid].job, deviceId, firmwareId)
  }

  /** No job of the pair is live, becomes live or is about to be created. */
  ghost predicate Free(s: State, deviceId: string, firmwareId: string) {
    && (forall id :: !BusyFor(s, id, deviceId, firmwareId))
    && (forall pid :: !Creating(s, pid, deviceId, firmwareId))
  }

  predicate Requests(request: Request, deviceId: string, firmwareId: string) {
    request.deviceId == deviceId && request.firmwareId == firmwareId
  }

  /**
   * A check that finds no live job of the pair, and a flash by hand, start while
   * nothing is under way for the pair; an operation by ID does not take up a failed job
   * while another one is live. Retries, aborts and failures may start at any time.
   */
  ghost predicate Allowed(s: State, op: Operation, deviceId: string, firmwareId: string) {
    match op
    case StartDeviceFlash(request) => Requests(request, deviceId, firmwareId) ==> Free(s, deviceId, firmwareId)
    case AutomaticUpdate(request, readable) =>
      Requests(request, deviceId, firmwareId) ==>
        (readable && HasFlashJob(s.jobs, deviceId, firmwareId)) || Free(s, deviceId, firmwareId)
    case RetryMissedFlashChunks(_, _, _) => true
    case AbortDeviceFlash(_, _, _) => true
    case FailFlashJob(_, _) => true
    case _ =>
      op.jobId in s.jobs && OfPair(s.jobs[op.jobId], deviceId, firmwareId) ==>
        Busy(s, op.jobId) || Free(s, deviceId, firmwareId)
  }

  ghost predicate ChecksAlone(hash: Hash, events: seq<Event>, deviceId: string, firmwareId: string) {
    forall k :: 0 <= k < |events| && events[k].Spawn? ==>
      Allowed(Execute(hash, events[..k]), events[k].op, deviceId, firmwareId)
  }

  /** One job of the pair is busy or one is about to be created, not both. */
  ghost predicate Exclusive(s: State, deviceId: string, firmwareId: string) {
    && WellFormed(s)
    && (forall pid :: pid in s.tasks && s.tasks[pid].SaveFailed? ==> s.tasks[pid].job.status == Failed)
    && (forall a, b :: BusyFor(s, a, deviceId, firmwareId) && BusyFor(s, b, deviceId, firmwareId) ==> a == b)
    && (forall p, q :: Creating(s, p, deviceId, firmwareId) && Creating(s, q, deviceId, firmwareId) ==> p == q)
    && (forall pid, id :: Creating(s, pid, deviceId, firmwareId) ==> !BusyFor(s, id, deviceId, firmwareId))
  }

  lemma FirstTaskAllowed(hash: Hash, s: State, op: Operation, now: int, deviceId: string, firmwareId: string)
    requires WellFormed(s) && Allowed(s, op, deviceId, firmwareId) && FirstTask(hash, s, op, now).Some?
    ensures var task := FirstTask(hash, s, op, now).value;
            && (task.SaveFailed? ==> task.job.status == Failed)
            && (task.CreateJob? && OfPair(task.job, deviceId, firmwareId) ==> Free(s, deviceId, firmwareId))
            && (!task.CreateJob? && !task.SaveFailed? && JobOf(task) in s.jobs && OfPair(s.jobs[JobOf(task)], deviceId, firmwareId) ==>
                  Busy(s, JobOf(task)) || Free(s, deviceId, firmwareId))
  {
    hide Sound, TaskGenuine, Manifest, FirstOccurrences, HasFlashJob, Free, MarkAll, ProgressFor;
  }

  lemma SpawnKeepsExclusive(hash: Hash, s: State, pid: nat, op: Operation, now: int, deviceId: string, firmwareId: string)
    requires Exclusive(s, deviceId, firmwareId) && Allowed(s, op, deviceId, firmwareId)
    ensures var after := Apply(hash, s, Spawn(pid, op, now));
            WellFormed(after) ==> Exclusive(after, deviceId, firmwareId)
  {
    hide WellFormed, FirstTask, Allowed, Exclusive;
    var after := Apply(hash, s, Spawn(pid, op, now));
    if pid !in s.tasks && FirstTask(hash, s, op, now).Some? {
      ExclusiveIsWellFormed(s, deviceId, firmwareId);
      FirstTaskAllowed(hash, s, op, now, deviceId, firmwareId);
      TaskKeepsExclusive(s, after, pid, FirstTask(hash, s, op, now).value, deviceId, firmwareId);
    } else {
      assert after.tasks == s.tasks;
      if WellFormed(after) {
        SameJobsAndTasks(s, after, deviceId, firmwareId);
      }
    }
  }

  lemma ExclusiveIsWellFormed(s: State, deviceId: string, firmwareId: string)
    requires Exclusive(s, deviceId, firmwareId)
    ensures WellFormed(s)
  {
  }

  lemma TaskKeepsExclusive(s: State, after: State, pid: nat, task: Task, deviceId: string, firmwareId: string)
    requires Exclusive(s, deviceId, firmwareId) && pid !in s.tasks && after.jobs == s.jobs && after.tasks == s.tasks[pid := task]
    requires task.SaveFailed? ==> task.job.status == Failed
    requires task.CreateJob? && OfPair(task.job, deviceId, firmwareId) ==> Free(s, deviceId, firmwareId)
    requires !task.CreateJob? && !task.SaveFailed? && JobOf(task) in s.jobs && OfPair(s.jobs[JobOf(task)], deviceId, firmwareId) ==>
               Busy(s, JobOf(task)) || Free(s, deviceId, firmwareId)
    ensures WellFormed(after) ==> Exclusive(after, deviceId, firmwareId)
  {
    hide WellFormed, JobOf;
    forall id | BusyFor(after, id, deviceId, firmwareId)
      ensures BusyFor(s, id, deviceId, firmwareId) || (MayRevive(task, id) && Free(s, deviceId, firmwareId))
    {
    }
    forall p | Creating(after, p, deviceId, firmwareId)
      ensures Creating(s, p, deviceId, firmwareId) || (p == pid && task.CreateJob? && Free(s, deviceId, firmwareId))
    {
    }
  }

  /** A step of any task but a creation makes no other job busy, and leaves each to its pair. */
  lemma StepMakesNoneBusy(hash: Hash, s: State, pid: nat, ok: bool, now: int, id: string)
    requires WellFormed(s) && pid in s.tasks && !s.tasks[pid].CreateJob?
    requires s.tasks[pid].SaveFailed? ==> s.tasks[pid].job.status == Failed
    requires Busy(Apply(hash, s, Run(pid, ok, now)), id)
    ensures Busy(s, id)
    ensures Apply(hash, s, Run(pid, ok, now)).jobs[id].deviceId == s.jobs[id].deviceId
    ensures Apply(hash, s, Run(pid, ok, now)).jobs[id].firmwareId == s.jobs[id].firmwareId
  {
    hide Sound, NextTask, SameManifest, LedgerAfter;
    var task := s.tasks[pid];
    assert TaskGenuine(s.jobs, task);
    StaysWithItsJob(hash, s, task, ok, now);
    NextIsNoCreation(hash, s, task, ok, now);
    assert MayRevive(task, JobOf(task)) || task.SaveFailed?;
  }

  lemma NextIsNoCreation(hash: Hash, s: State, task: Task, ok: bool, now: int)
    ensures var next := NextTask(hash, s, task, ok, now);
            next.Some? ==> !next.value.CreateJob? && (next.value.SaveFailed? ==> next.value.job.status == Failed)
    ensures task.SaveFailed? ==> NextTask(hash, s, task, ok, now).None?
  {
    hide Unsent, ReadChunk, MarkAll, ProgressFor, MarkTransferred, MarkRunning, Complete;
  }

  /** A creation makes only the new job busy. */
  lemma CreationMakesOneBusy(hash: Hash, s: State, pid: nat, ok: bool, now: int, id: string)
    requires WellFormed(s) && pid in s.tasks && s.tasks[pid].CreateJob?
    requires Busy(Apply(hash, s, Run(pid, ok, now)), id)
    ensures if SavedBy(s.jobs, s.tasks[pid], ok).Some? && id == s.tasks[pid].job.id
            then Apply(hash, s, Run(pid, ok, now)).jobs[id] == s.tasks[pid].job
            else Busy(s, id) && Apply(hash, s, Run(pid, ok, now)).jobs[id] == s.jobs[id]
  {
    hide Sound, WellFormed;
  }

  lemma RunKeepsExclusive(hash: Hash, s: State, pid: nat, ok: bool, now: int, deviceId: string, firmwareId: string)
    requires Exclusive(s, deviceId, firmwareId) && pid in s.tasks
    ensures var after := Apply(hash, s, Run(pid, ok, now));
            WellFormed(after) ==> Exclusive(after, deviceId, firmwareId)
  {
    hide WellFormed, NextTask, SavedBy, LedgerAfter, Busy;
    var task, after := s.tasks[pid], Apply(hash, s, Run(pid, ok, now));
    NextIsNoCreation(hash, s, task, ok, now);
    forall id | BusyFor(after, id, deviceId, firmwareId)
      ensures BusyFor(s, id, deviceId, firmwareId) || (Creating(s, pid, deviceId, firmwareId) && id == task.job.id)
    {
      if task.CreateJob? {
        CreationMakesOneBusy(hash, s, pid, ok, now, id);
      } else {
        StepMakesNoneBusy(hash, s, pid, ok, now, id);
      }
    }
    forall p | Creating(after, p, deviceId, firmwareId) ensures p != pid && Creating(s, p, deviceId, firmwareId) {
    }
  }

  /**
   * However pumps, retries, aborts and restarts overlap: a device has at most one job
   * for a firmware that has not failed, as long as each check that finds none, and
   * each flash by hand, starts while nothing is under way for the two.
   */
  lemma {:induction false} AutomaticRunsKeepOneLiveJob(hash: Hash, events: seq<Event>, deviceId: string, firmwareId: string)
    requires ChecksAlone(hash, events, deviceId, firmwareId)
    ensures OneLive(Execute(hash, events).jobs, deviceId, firmwareId)
    ensures Exclusive(Execute(hash, events), deviceId, firmwareId)
    decreases |events|
  {
    hide WellFormed, OneLive, Allowed, Apply, Exclusive;
    if events == [] {
      NothingIsExclusive(deviceId, firmwareId);
    } else {
      var before, e := events[..|events| - 1], events[|events| - 1];
      assert forall k :: 0 <= k <= |before| ==> before[..k] == events[..k];
      assert forall k :: 0 <= k < |before| ==> before[k] == events[k];
      AutomaticRunsKeepOneLiveJob(hash, before, deviceId, firmwareId);
      EventKeepsExclusive(hash, Execute(hash, before), e, deviceId, firmwareId);
    }
    ExclusiveIsOneLive(Execute(hash, events), deviceId, firmwareId);
  }

  lemma ExclusiveIsOneLive(s: State, deviceId: string, firmwareId: string)
    requires Exclusive(s, deviceId, firmwareId)
    ensures OneLive(s.jobs, deviceId, firmwareId)
  {
    hide WellFormed;
    forall id | Live(s.jobs, id) && OfPair(s.jobs[id], deviceId, firmwareId) ensures BusyFor(s, id, deviceId, firmwareId) {
    }
  }

  lemma EventKeepsExclusive(hash: Hash, s: State, e: Event, deviceId: string, firmwareId: string)
    requires Exclusive(s, deviceId, firmwareId) && (e.Spawn? ==> Allowed(s, e.op, deviceId, firmwareId))
    ensures Exclusive(Apply(hash, s, e), deviceId, firmwareId)
  {
    hide WellFormed, FirstTask, NextTask, SavedBy, LedgerAfter, JobOf, Allowed;
    EventKeepsWellFormed(hash, s, e);
    match e
    case Spawn(pid, op, now) => SpawnKeepsExclusive(hash, s, pid, op, now, deviceId, firmwareId);
    case Run(pid, ok, now) =>
      if pid in s.tasks {
        RunKeepsExclusive(hash, s, pid, ok, now, deviceId, firmwareId);
      }
    case WriteFile(_, _) => SameJobsAndTasks(s, Apply(hash, s, e), deviceId, firmwareId);
    case RemoveFile(_) => SameJobsAndTasks(s, Apply(hash, s, e), deviceId, firmwareId);
  }

  lemma SameJobsAndTasks(s: State, after: State, deviceId: string, firmwareId: string)
    requires Exclusive(s, deviceId, firmwareId) && after.jobs == s.jobs && after.tasks == s.tasks && WellFormed(after)
    ensures Exclusive(after, deviceId, firmwareId)
  {
    hide WellFormed;
    forall id | BusyFor(after, id, deviceId, firmwareId) ensures BusyFor(s, id, deviceId, firmwareId) {
    }
    forall pid | Creating(after, pid, deviceId, firmwareId) ensures Creating(s, pid, deviceId, firmwareId) {
    }
  }

  lemma NothingIsExclusive(deviceId: string, firmwareId: string)
    ensures Exclusive(INITIAL, deviceId, firmwareId)
  {
  }

  // ------------------------------------------------- what interleaving does break

  lemma ReplayStep(hash: Hash, s: State, events: seq<Event>, e: Event)
    ensures Replay(hash, s, events + [e]) == Apply(hash, Replay(hash, s, events), e)
  {
    assert (events + [e])[..|events|] == events;
  }

  predicate Readable(hash: Hash, s: State, job: Job, index: int) {
    && 0 <= index < |job.chunks|
    && job.binaryPath in s.files
    && ReadChunk(hash, s.files[job.binaryPath], job.chunks[index]).Ok?
  }

  /** SendFlashChunk for a running job, up to the moment before the transport call. */
  lemma SendGetsReady(hash: Hash, s: State, pid: nat, jobId: string, index: int) returns (events: seq<Event>, data: Bytes)
    requires pid !in s.tasks && jobId in s.jobs && s.jobs[jobId].status == Running
    requires Readable(hash, s, s.jobs[jobId], index)
    ensures Replay(hash, s, events) == WithTask(s, pid, Some(Send(s.jobs[jobId], index, data, Return)))
  {
    hide ReadChunk;
    var job := s.jobs[jobId];
    data := ReadChunk(hash, s.files[job.binaryPath], job.chunks[index]).value;
    var start, load, read := Spawn(pid, SendFlashChunk(jobId, index), 0), Run(pid, true, 0), Run(pid, true, 0);
    events := [start];
    assert [start][..0] == [];
    assert Replay(hash, s, events) == WithTask(s, pid, Some(LoadChunk(jobId, index, Return)));
    ReplayStep(hash, s, events, load);
    events := events + [load];
    assert Replay(hash, s, events) == WithTask(s, pid, Some(ReadData(job, index, Return)));
    ReplayStep(hash, s, events, read);
    events := events + [read];
  }

  /** The transport accepts the chunk, and the mark is stored. */
  lemma SendIsAccepted(hash: Hash, s: State, pid: nat, jobId: string, index: int, data: Bytes) returns (events: seq<Event>)
    requires jobId in s.jobs && s.jobs[jobId].id == jobId && 0 <= index < |s.jobs[jobId].chunks|
    requires pid in s.tasks && s.tasks[pid] == Send(s.jobs[jobId], index, data, Return)
    requires MarkTransferred(s.jobs[jobId], index, 0).status == Running
    ensures var marked := MarkTransferred(s.jobs[jobId], index, 0);
            Replay(hash, s, events) == State(s.jobs[jobId := marked], s.files,
              s.ledger.(delivered := s.ledger.delivered + [Delivery(jobId, index, data)]), s.tasks - {pid})
  {
    var job := s.jobs[jobId];
    var marked := MarkTransferred(job, index, 0);
    MarkKeepsId(job, index, 0);
    hide MarkTransferred;
    var step := Run(pid, true, 0);
    var sent := s.(ledger := s.ledger.(delivered := s.ledger.delivered + [Delivery(jobId, index, data)]));
    events := [step];
    assert [step][..0] == [];
    assert Replay(hash, s, events) == WithTask(sent, pid, Some(LoadMark(jobId, index, Return)));
    ReplayStep(hash, s, events, step);
    events := events + [step];
    assert Replay(hash, s, events) == WithTask(sent, pid, Some(SaveMarked(marked, Return)));
    ReplayStep(hash, s, events, step);
    events := events + [step];
    var after := Replay(hash, s, events);
    assert after.tasks == s.tasks - {pid};
    assert after.jobs == s.jobs[jobId := marked];
  }

  /** The transport rejects the chunk, and the record loaded before the call is stored as failed. */
  lemma SendIsRejected(hash: Hash, s: State, pid: nat, job: Job, index: int, data: Bytes) returns (events: seq<Event>)
    requires pid in s.tasks && s.tasks[pid] == Send(job, index, data, Return)
    ensures Replay(hash, s, events).jobs == s.jobs[job.id := Fail(job, "chunk rejected", 0)]
  {
    var reject, save := Run(pid, false, 0), Run(pid, true, 0);
    events := [reject];
    assert [reject][..0] == [];
    assert Replay(hash, s, events) == WithTask(s, pid, Some(SaveFailed(Fail(job, "chunk rejected", 0))));
    ReplayStep(hash, s, events, save);
    events := events + [save];
  }

  /**
   * Progress is kept only one operation at a time: from every state in which a
   * running job has two readable chunks left, two overlapping sends can store a
   * mark and then overwrite it with an older record.
   */
  lemma OverlappingSendsLoseAMark(hash: Hash, s: State, jobId: string, a: int, b: int)
    returns (before: seq<Event>, after: seq<Event>)
    requires s.tasks == map[] && jobId in s.jobs && s.jobs[jobId].id == jobId
    requires Sound(s.jobs[jobId]) && s.jobs[jobId].status == Running
    requires a != b && Readable(hash, s, s.jobs[jobId], a) && Readable(hash, s, s.jobs[jobId], b)
    requires !s.jobs[jobId].chunks[a].transferred && !s.jobs[jobId].chunks[b].transferred
    ensures var mid := Replay(hash, s, before);
            var end := Replay(hash, mid, after);
            && jobId in mid.jobs && jobId in end.jobs && |mid.jobs[jobId].chunks| == |end.jobs[jobId].chunks|
            && b < |mid.jobs[jobId].chunks| && mid.jobs[jobId].chunks[b].transferred
            && !end.jobs[jobId].chunks[b].transferred
            && end.jobs[jobId].transferred < mid.jobs[jobId].transferred
  {
    hide Replay, ReadChunk, MarkTransferred, Sound;
    var job := s.jobs[jobId];
    var first, dataA := SendGetsReady(hash, s, 0, jobId, a);
    var s1 := Replay(hash, s, first);
    var second, dataB := SendGetsReady(hash, s1, 1, jobId, b);
    var s2 := Replay(hash, s1, second);
    MarkingLeavesRunning(job, a, b);
    var third := SendIsAccepted(hash, s2, 1, jobId, b, dataB);
    var mid := Replay(hash, s2, third);
    assert mid.jobs[jobId] == MarkTransferred(job, b, 0);
    ReplayAppends(hash, s, first, second);
    ReplayAppends(hash, s, first + second, third);
    before := first + second + third;
    after := SendIsRejected(hash, mid, 0, job, a, dataA);
  }

  lemma MarkingLeavesRunning(job: Job, a: int, b: int)
    requires Sound(job) && job.status == Running && a != b
    requires 0 <= a < |job.chunks| && 0 <= b < |job.chunks|
    requires !job.chunks[a].transferred && !job.chunks[b].transferred
    ensures var marked := MarkTransferred(job, b, 0);
            && marked.status == Running && |marked.chunks| == |job.chunks|
            && marked.chunks[b].transferred && marked.transferred == job.transferred + 1
  {
    hide MarkTransferred;
    MarkTransferredSound(job, b, 0);
    MarkingOneCounts(job.chunks, b);
  }

  lemma {:induction false} ReplayAppends(hash: Hash, s: State, first: seq<Event>, second: seq<Event>)
    ensures Replay(hash, s, first + second) == Replay(hash, Replay(hash, s, first), second)
    decreases |second|
  {
    hide Apply;
    if second == [] {
      assert first + second == first;
    } else {
      var init, last := second[..|second| - 1], second[|second| - 1];
      assert first + second == (first + init) + [last];
      ReplayAppends(hash, s, first, init);
      ReplayStep(hash, s, first + init, last);
    }
  }

  /**
   * One live job needs one check at a time: two automatic checks of a device that
   * both look before either creates its job leave two live jobs for one firmware.
   */
  lemma OverlappingChecksDuplicate(hash: Hash, s: State, x: Request, y: Request) returns (events: seq<Event>)
    requires s.tasks == map[] && x.id !in s.jobs && y.id !in s.jobs && x.id != y.id
    requires x.deviceId == y.deviceId && x.firmwareId == y.firmwareId && x.binaryPath == y.binaryPath
    requires x.binaryPath in s.files && s.files[x.binaryPath] != []
    requires !HasFlashJob(s.jobs, x.deviceId, x.firmwareId)
    ensures forall k :: 0 <= k < |events| && events[k].Spawn? ==> events[k].op.AutomaticUpdate? && events[k].op.readable
    ensures Live(Replay(hash, s, events).jobs, x.id) && Live(Replay(hash, s, events).jobs, y.id)
    ensures !OneLive(Replay(hash, s, events).jobs, x.deviceId, x.firmwareId)
  {
    hide HasFlashJob, Manifest;
    var image := s.files[x.binaryPath];
    var jobX, jobY := NewJob(hash, x, image, 0), NewJob(hash, y, image, 0);
    var startX, startY := Spawn(0, AutomaticUpdate(x, true), 0), Spawn(1, AutomaticUpdate(y, true), 0);
    events := [startX];
    assert [startX][..0] == [];
    assert Replay(hash, s, events) == WithTask(s, 0, Some(CreateJob(jobX, image)));
    ReplayStep(hash, s, events, startY);
    events := events + [startY];
    ReplayStep(hash, s, events, Run(0, true, 0));
    events := events + [Run(0, true, 0)];
    assert Replay(hash, s, events).jobs == s.jobs[x.id := jobX];
    ReplayStep(hash, s, events, Run(1, true, 0));
    events := events + [Run(1, true, 0)];
    var jobs := Replay(hash, s, events).jobs;
    assert jobs == s.jobs[x.id := jobX][y.id := jobY];
    assert Live(jobs, x.id) && Live(jobs, y.id);
  }

  /**
   * One check is enough when a retry is under way: the job is aborted during the
   * retry's send, the check finds no live job and creates one, and the chunk of the
   * retry then completes the aborted job once more.
   */
  lemma LateRetryDuplicates(hash: Hash, s: State, jobId: string, index: int, y: Request) returns (events: seq<Event>)
    requires s.tasks == map[] && jobId in s.jobs && s.jobs[jobId].id == jobId
    requires Sound(s.jobs[jobId]) && s.jobs[jobId].status == Completed && Readable(hash, s, s.jobs[jobId], index)
    requires y.id !in s.jobs && y.deviceId == s.jobs[jobId].deviceId && y.firmwareId == s.jobs[jobId].firmwareId
    requires y.binaryPath in s.files && s.files[y.binaryPath] != []
    requires forall id :: Live(s.jobs, id) && OfPair(s.jobs[id], y.deviceId, y.firmwareId) ==> id == jobId
    ensures events == [Spawn(0, RetryMissedFlashChunks(y.deviceId, jobId, [index]), 0), Run(0, true, 0), Run(0, true, 0),
                       Spawn(1, AbortDeviceFlash(y.deviceId, jobId, ""), 0), Run(1, true, 0),
                       Spawn(2, AutomaticUpdate(y, true), 0), Run(2, true, 0),
                       Run(0, true, 0), Run(0, true, 0), Run(0, true, 0)]
    ensures !OneLive(Replay(hash, s, events).jobs, y.deviceId, y.firmwareId)
  {
    hide Replay, ReadChunk, MarkTransferred, Sound, Apply, OneLive, FirstOccurrences;
    var job := s.jobs[jobId];
    var first, data := RetryGetsReady(hash, s, jobId, index);
    var s1 := Replay(hash, s, first);
    var second := AbortedAndReplaced(hash, s1, jobId, y);
    var s2 := Replay(hash, s1, second);
    FailedCompletesAgain(job, index);
    var third := RetryCompletes(hash, s2, jobId, index, data);
    ReplayAppends(hash, s, first, second);
    ReplayAppends(hash, s, first + second, third);
    events := first + second + third;
    TwoLive(Replay(hash, s, events).jobs, jobId, y.id, y.deviceId, y.firmwareId);
  }

  lemma TwoLive(jobs: map<string, Job>, a: string, b: string, deviceId: string, firmwareId: string)
    requires Live(jobs, a) && Live(jobs, b) && a != b
    requires OfPair(jobs[a], deviceId, firmwareId) && OfPair(jobs[b], deviceId, firmwareId)
    ensures !OneLive(jobs, deviceId, firmwareId)
  {
  }

  /** RetryMissedFlashChunks for a completed job, up to the moment before the transport call. */
  lemma RetryGetsReady(hash: Hash, s: State, jobId: string, index: int) returns (events: seq<Event>, data: Bytes)
    requires 0 !in s.tasks && jobId in s.jobs && s.jobs[jobId].status == Completed
    requires Readable(hash, s, s.jobs[jobId], index)
    ensures events == [Spawn(0, RetryMissedFlashChunks(s.jobs[jobId].deviceId, jobId, [index]), 0), Run(0, true, 0), Run(0, true, 0)]
    ensures Replay(hash, s, events) == WithTask(s, 0, Some(Send(s.jobs[jobId], index, data, RetryRest([]))))
  {
    hide ReadChunk;
    var job := s.jobs[jobId];
    data := ReadChunk(hash, s.files[job.binaryPath], job.chunks[index]).value;
    var start, step := Spawn(0, RetryMissedFlashChunks(job.deviceId, jobId, [index]), 0), Run(0, true, 0);
    OneOccurrence(index, |job.chunks|);
    hide FirstOccurrences;
    assert [index][1..] == [];
    events := [start];
    assert [start][..0] == [];
    assert Replay(hash, s, events) == WithTask(s, 0, Some(LoadChunk(jobId, index, RetryRest([]))));
    ReplayStep(hash, s, events, step);
    events := events + [step];
    assert Replay(hash, s, events) == WithTask(s, 0, Some(ReadData(job, index, RetryRest([]))));
    ReplayStep(hash, s, events, step);
    events := events + [step];
  }

  lemma OneOccurrence(index: int, chunkCount: int)
    requires 0 <= index < chunkCount
    ensures FirstOccurrences([index], chunkCount) == [index]
  {
    assert [index][..0] == [];
  }

  /** The only live job is aborted, and a check creates another one. */
  lemma AbortedAndReplaced(hash: Hash, s: State, jobId: string, y: Request) returns (events: seq<Event>)
    requires 1 !in s.tasks && 2 !in s.tasks && jobId in s.jobs && s.jobs[jobId].id == jobId && Live(s.jobs, jobId)
    requires y.id !in s.jobs && y.deviceId == s.jobs[jobId].deviceId && y.firmwareId == s.jobs[jobId].firmwareId
    requires y.binaryPath in s.files && s.files[y.binaryPath] != []
    requires forall id :: Live(s.jobs, id) && OfPair(s.jobs[id], y.deviceId, y.firmwareId) ==> id == jobId
    ensures events == [Spawn(1, AbortDeviceFlash(y.deviceId, jobId, ""), 0), Run(1, true, 0),
                       Spawn(2, AutomaticUpdate(y, true), 0), Run(2, true, 0)]
    ensures var after := Replay(hash, s, events);
            && after.jobs == s.jobs[jobId := Fail(s.jobs[jobId], "device aborted flash", 0)][y.id := NewJob(hash, y, s.files[y.binaryPath], 0)]
            && forall pid :: pid in s.tasks ==> pid in after.tasks && after.tasks[pid] == s.tasks[pid]
  {
    hide Manifest;
    var failed := Fail(s.jobs[jobId], "device aborted flash", 0);
    var jobY := NewJob(hash, y, s.files[y.binaryPath], 0);
    events := [Spawn(1, AbortDeviceFlash(y.deviceId, jobId, ""), 0)];
    assert events[..0] == [];
    var s1 := WithTask(s, 1, Some(SaveFailed(failed)));
    assert Replay(hash, s, events) == s1;
    ReplayStep(hash, s, events, Run(1, true, 0));
    events := events + [Run(1, true, 0)];
    var s2 := Replay(hash, s, events);
    assert s2.jobs == s.jobs[jobId := failed] && s2.tasks == s.tasks && s2.files == s.files;
    assert !HasFlashJob(s2.jobs, y.deviceId, y.firmwareId) by {
      forall id | id in s2.jobs && s2.jobs[id].status != Failed ensures !OfPair(s2.jobs[id], y.deviceId, y.firmwareId) {
        assert id != jobId && Live(s.jobs, id);
      }
    }
    ReplayStep(hash, s, events, Spawn(2, AutomaticUpdate(y, true), 0));
    events := events + [Spawn(2, AutomaticUpdate(y, true), 0)];
    assert Replay(hash, s, events) == WithTask(s2, 2, Some(CreateJob(jobY, s.files[y.binaryPath])));
    ReplayStep(hash, s, events, Run(2, true, 0));
    events := events + [Run(2, true, 0)];
  }

  /** A completed job that was failed since is completed again by any chunk of it. */
  lemma FailedCompletesAgain(job: Job, index: int)
    requires Sound(job) && job.status == Completed && 0 <= index < |job.chunks|
    ensures var again := MarkTransferred(Fail(job, "device aborted flash", 0), index, 0);
            again.status == Completed && OfPair(again, job.deviceId, job.firmwareId)
  {
    CountIsFull(job.chunks);
  }

  /** The retry's chunk is accepted, and the mark is stored. */
  lemma RetryCompletes(hash: Hash, s: State, jobId: string, index: int, data: Bytes) returns (events: seq<Event>)
    requires jobId in s.jobs && s.jobs[jobId].id == jobId && 0 <= index < |s.jobs[jobId].chunks|
    requires 0 in s.tasks && s.tasks[0].Send? && s.tasks[0].job.id == jobId && s.tasks[0].index == index
    ensures events == [Run(0, true, 0), Run(0, true, 0), Run(0, true, 0)]
    ensures Replay(hash, s, events).jobs == s.jobs[jobId := MarkTransferred(s.jobs[jobId], index, 0)]
  {
    var then_, step, marked := s.tasks[0].then_, Run(0, true, 0), MarkTransferred(s.jobs[jobId], index, 0);
    var sent := s.(ledger := LedgerAfter(s, s.tasks[0], true));
    MarkKeepsId(s.jobs[jobId], index, 0);
    hide MarkTransferred, Continue, LedgerAfter;
    events := [step];
    assert [step][..0] == [];
    assert Replay(hash, s, events) == WithTask(sent, 0, Some(LoadMark(jobId, index, then_)));
    assert LedgerAfter(WithTask(sent, 0, Some(LoadMark(jobId, index, then_))), LoadMark(jobId, index, then_), true) == sent.ledger by {
      LoadsDeliverNothing(WithTask(sent, 0, Some(LoadMark(jobId, index, then_))), jobId, index, then_);
    }
    ReplayStep(hash, s, events, step);
    events := events + [step];
    assert Replay(hash, s, events) == WithTask(sent, 0, Some(SaveMarked(marked, then_)));
    ReplayStep(hash, s, events, step);
    events := events + [step];
  }

  lemma LoadsDeliverNothing(s: State, jobId: string, index: int, then_: Then)
    ensures LedgerAfter(s, LoadMark(jobId, index, then_), true) == s.ledger
  {
  }

  /** A check that cannot read the jobs finds none live, and creates another one. */
  lemma UnreadableJobsDuplicate(hash: Hash, s: State, jobId: string, y: Request, now: int)
    requires s.tasks == map[] && Live(s.jobs, jobId) && y.id !in s.jobs && OfPair(s.jobs[jobId], y.deviceId, y.firmwareId)
    requires y.binaryPath in s.files && s.files[y.binaryPath] != []
    ensures !OneLive(Replay(hash, s, [Spawn(0, AutomaticUpdate(y, false), now), Run(0, true, now)]).jobs, y.deviceId, y.firmwareId)
  {
    hide Manifest;
    var start, step, image := Spawn(0, AutomaticUpdate(y, false), now), Run(0, true, now), s.files[y.binaryPath];
    assert [start][..0] == [];
    assert Replay(hash, s, [start]) == WithTask(s, 0, Some(CreateJob(NewJob(hash, y, image, now), image)));
    ReplayStep(hash, s, [start], step);
    assert [start] + [step] == [start, step];
    var jobs := Replay(hash, s, [start, step]).jobs;
    assert jobs == s.jobs[y.id := NewJob(hash, y, image, now)];
    assert Live(jobs, jobId) && Live(jobs, y.id);
  }
}
