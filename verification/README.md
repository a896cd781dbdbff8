# Verified model of the device protocol and over-the-air flashing

This Dafny project models the part of the server that talks to devices and flashes them over the air,
and proves what that part promises. It checks with `dafny verify dfyconfig.toml`. Nothing in it was executed.

| file | models |
|---|---|
| `Coap.dfy` | the CoAP codec (sections 3 and 3.1 of RFC 7252) with its 16-bit wrap-around |
| `SessionCodec.dfy`, `Framing.dfy`, `SessionStream.dfy` | padding and encrypt-then-MAC, length-prefixed frames, and the send and receive paths made of them |
| `ChunkManifest.dfy`, `OtaDelivery.dfy` | cutting a binary into chunks, the chunk requests, and a device that puts them together again |
| `FlashJobs.dfy`, `FlashService.dfy` | flash-job records, and the job operations one at a time |
| `FlashInterleaving.dfy` | the same operations side by side, with every load, read, transport call and save a step of its own |
| `RequestTable.dfy` | the two maps that match responses to waiting requests |
| `EventBroker.dfy` | event subscriptions under the read/write lock |
| `FirmwareCatalog.dfy` | firmware records, their flags, and the choice of the firmware to run |
| `WebhookBackoff.dfy`, `WebhookInterleaving.dfy` | webhook attempts and their back-off, one delivery at a time and side by side |
| `Basics.dfy`, `Sorting.dfy` | machine integers, result types, and what `sort.Slice` does |

Where the source changes state step by step, the model is a method or a class whose contract ties the new state to a
function of the old one; the lemmas are about those functions. Properties of whole runs are stated over state machines
(`Execute` of a list of steps). The main results:

* **Codec.** Parsing inverts marshalling exactly for types below 4 and option values of at most 65535 bytes;
  marshalling inverts parsing exactly for the inputs on which no 16-bit sum overflows. The input
  `40 01 00 00 e0 ff ff` is accepted although its delta wraps, and is not what marshalling gives.
* **Stream.** Packets sent back to back are received as sent, to the last byte of the stream, and what is received
  without overflow was sent that way.
* **Flashing.** However pumps, retries, aborts, restarts, failed saves and file replacements interleave, a marked chunk
  was accepted by the transport with the bytes of the binary the job was cut from. A device that orders the accepted
  chunks of a completed job by index and cuts them to the size in the job's record has exactly that binary if and only if
  there are at most 65536 chunks and the size is right, or too large with no padding to cut. A stored record is always
  consistent, and a job whose own operations do not overlap never loses progress, whatever other jobs do.
* **Requests.** The two maps hold exactly the open requests, no channel is closed twice, and a request receives at most
  one response, one that arrived for it while it was in flight.
* **Events.** No event is sent on a closed channel; streams are the matching events, less those that found 16 waiting;
  a publish that ended before another began precedes it in every stream.
* **Catalogue.** At most one firmware of a product is current, and without late saves it is the one designated last. A
  record describes its binary while it names the one written last; that holds as long as no edit overlaps a replacement and
  the replacement was saved. A device is offered nothing more once it runs what it was offered.
* **Webhooks.** The stored counters follow the history of a webhook, and its requests are spaced by the back-off, as long as
  nothing else saves it between a delivery's list and its record.

Assumptions are parameters or predicates: `SessionCodec.Lawful` (the cipher is a length-preserving bijection, the MAC has
20 bytes), `ChunkManifest.CollisionFree` (the hash is injective), the latter only where a binary may be replaced while its
job runs, and `FirmwareCatalog.DistinctPaths` (records with different IDs have different files). A save, a transport
call, a write or a file operation may fail at any time; `reliable` in a class says that none does.

What does not hold in general, and exactly when it does:

* Marshalling inverts parsing unless a 16-bit sum overflows (`Coap.MarshalInvertsParse`).
* A device recovers a binary under the condition on chunks and size above (`OtaDelivery.DeviceRecoversExactly`). The size
  and checksum of a record are those of its file exactly when the file has the bytes the record was made for
  (`FirmwareCatalog.RecordDescribesExactly`). They are while no edit of the firmware, a release, a default or the clearing
  of its flags included, overlaps a replacement of its binary, exactly when the last replacement was saved
  (`SavedReplacementsDescribe`). From every state a late save after a replacement by a different binary at the same path,
  or the failed save of one, breaks it (`StaleSaveMisdescribes`, `FailedSaveMisdescribes`).
* A response is sent on a closed channel, which ends the program, if and only if the channel is closed between the look-up
  of the response and its send (`RequestTable.PanicsExactlyWhenOvertaken`); the lock is released in between, and
  `Registry.Unregister` closes a client from another goroutine.
* The maps hold every open request while none outlives the window of 65535 IDs (`RequestTable.EveryRunIsConsistent`);
  registering one is safe exactly when no open request holds its ID (`BeginKeepsExactly`, `OldRequestEvictsNew`). IDs are
  issued in sequence exactly when each reset follows the last ID (`InSequenceExactly`); they are unless two callers meet at
  the wrap-around (`IdsAreIssuedInSequence`, `MeetingAtTheResetRepeats`).
* A job keeps its progress unless operations on that job overlap (`FlashInterleaving.JobsKeepProgress`,
  `OverlappingSendsLoseAMark`).
* A device has one live job per firmware, however pumps, retries and aborts overlap, as long as an automatic check that
  finds none live, and a flash by hand, start while nothing is under way for the two, and no call by ID takes up a failed
  job beside a live one (`AutomaticRunsKeepOneLiveJob`). Two checks at once, one check during a late retry, or one that
  cannot read the jobs leave two (`OverlappingChecksDuplicate`, `LateRetryDuplicates`, `UnreadableJobsDuplicate`).
* Streams follow the order of publishing unless publishes overlap (`EventBroker.EndedPublishesPrecede`,
  `OverlappingPublishesReorder`).
* One firmware of a product is current unless two designations of the product overlap, or an edit of the current firmware
  that began before a designation is saved after it (`FirmwareCatalog.EveryRunKeepsOneCurrent`,
  `OverlappingDesignationsLeaveTwo`, `StaleSaveLeavesTwo`), and its two flags agree unless such an edit comes late or an
  update clears one of the two flags of the current firmware (`UpdatesThatPair`, `StaleDefaultIsServed`).
* Attempts are spaced, and failures counted, unless a webhook is saved between a delivery's list and its record, or the
  record is lost (`WebhookInterleaving.DeliveriesAreSpaced`, `RecordKeepsExactly`). Two overlapping deliveries of a due
  webhook both send and count one failure (`OverlappingDeliveriesCrowd`); a record after an edit or a deletion brings the
  webhook back as it was (`LateRecordUndoes`).

## Model

| member | source | states |
|---|---|---|
| Coap.ParseInvertsMarshal | internal/protocol/coap/packet.go:49-192 | marshalled bytes parse to the same header, token, payload and sorted options if and only if the type is below 4 and every value is at most 65535 bytes; then no sum overflows |
| Coap.MarshalInvertsParse | internal/protocol/coap/packet.go:96-223 | an accepted input is what marshalling its packet gives if and only if no 16-bit sum overflowed while it was parsed |
| Coap.AcceptedIsMarshalled | internal/protocol/coap/packet.go:96-223 | the inputs accepted without overflow are exactly the marshalled forms of well-typed packets |
| Coap.OverflowIsNotCanonical | internal/protocol/coap/packet.go:206-223 | a concrete accepted input whose extended delta wraps at 65536 |
| Coap.BodyRoundTrip | internal/protocol/coap/packet.go:74-192 | options and payload are read back from their encoding; no option header byte is the payload marker |
| Coap.BodyCanonical | internal/protocol/coap/packet.go:74-192 | options read without overflow ascend and encode to the bytes they were read from |
| Coap.ExtendedRoundTrip | internal/protocol/coap/packet.go:194-223 | every value survives its nibble and extension bytes, and the nibble is never 15 |
| Coap.ExtendedCanonical | internal/protocol/coap/packet.go:194-223 | a nibble and extension bytes read without overflow are the encoding of their value |
| Coap.SegmentsKeepTheirOrder | internal/protocol/coap/packet.go:61-63 | with up to 12 options, options of one number keep their order on the wire |
| Coap.Marshal | internal/protocol/coap/packet.go:49-94 | succeeds exactly for versions 0 and 1 and tokens of at most 8 bytes, with the encoding of the options sorted by number |
| Coap.MarshalBody | internal/protocol/coap/packet.go:74-92 | the option loop appends the encoding of the sorted options and the payload |
| Coap.Parse | internal/protocol/coap/packet.go:96-144 | total on all inputs, reading nothing past the end, and equal to the recursive decoder |
| Coap.ParseBody | internal/protocol/coap/packet.go:122-143 | the loop reads the options up to the payload marker or the end, as the recursive decoder does |
| Sorting.InsertionSortSorts | internal/protocol/coap/packet.go:61-63 | insertion sort gives a sorted permutation |
| Sorting.InsertionSortStable | internal/protocol/coap/packet.go:61-63 | insertion sort never reorders equal elements |
| SessionCodec.UnpadInvertsPad | internal/protocol/session/codec.go:117-142 | for every block size, a message is accepted as some data if and only if it is that data padded and the padding length fits a byte |
| SessionCodec.EncryptedSize | internal/protocol/session/codec.go:58-79 | an encrypted message has 36 + 16(n/16 + 1) bytes |
| SessionCodec.RoundTrip | internal/protocol/session/codec.go:58-109 | decrypting an encrypted plaintext gives it back, under every vector |
| SessionCodec.DecryptInvertsEncrypt | internal/protocol/session/codec.go:81-109 | a message decrypts to a plaintext if and only if it is that plaintext encrypted under its leading vector |
| SessionCodec.Pkcs7Pad | internal/protocol/session/codec.go:117-123 | the loop appends exactly the padding |
| SessionCodec.Pkcs7Unpad | internal/protocol/session/codec.go:125-142 | accepts and rejects as the specification function does |
| SessionCodec.EncryptMessage | internal/protocol/session/codec.go:58-79 | builds vector, ciphertext and MAC in that order |
| SessionCodec.DecryptMessage | internal/protocol/session/codec.go:81-109 | checks length, MAC, alignment and padding in that order, with their errors |
| Framing.ReadInvertsWrite | internal/protocol/framing/framing.go:45-78 | a reader gets a frame if and only if the stream starts with that frame and it is not too large |
| Framing.HalfFrameIsNotRead | internal/protocol/framing/framing.go:45-63 | a frame of which only a part was written is never read as a frame |
| Framing.Reader.ReadFrame | internal/protocol/framing/framing.go:45-63 | consumes the stream as the specification says, short reads and oversized frames included |
| Framing.Writer.WriteFrame | internal/protocol/framing/framing.go:65-78 | refuses exactly 65536 bytes and more, writing nothing; otherwise appends one frame, or when a write fails only a part of it |
| SessionStream.ReceiveInvertsSend | internal/protocol/tcp/session_loop.go:25-43 | frames followed by any bytes are received as the packets sent, and then the rest is read |
| SessionStream.StreamInversion | internal/protocol/tcp/client.go:226-251 | packets written back to back are received in order, consuming exactly the stream |
| SessionStream.BrokenStream | internal/protocol/tcp/session_loop.go:30-43 | when the connection breaks inside a frame, all packets before it are received and the session ends |
| SessionStream.AcceptedWasSealed | internal/protocol/tcp/session_loop.go:30-43 | a packet received without overflow stood on the stream as sendPacket would have written it |
| SessionStream.SendPacket | internal/protocol/tcp/client.go:226-251 | sends nothing on a cancelled context; otherwise fills in the defaults and appends one sealed frame, or nothing, or on a broken connection a part of the frame |
| SessionStream.WritePacket | internal/protocol/tcp/client.go:240-250 | marshals, encrypts and writes one packet, and what each failure leaves on the stream |
| SessionStream.ServeSession | internal/protocol/tcp/session_loop.go:25-78 | reads, decrypts, parses, dispatches and replies: the packets are those on the stream up to where it stops, each gets its reply in order, and it stops for the reason given |
| ChunkManifest.ManifestPartitions | internal/firmware/ota.go:455-501 | chunks are contiguous from start to end, indexed by position, full except possibly the last, which is not empty |
| ChunkManifest.ReadingReassembles | internal/firmware/ota.go:594-619 | every chunk of an unchanged file can be read, and the data in order is the file |
| ChunkManifest.ReplacedFileCannotLeak | internal/firmware/ota.go:594-619 | a chunk still readable after the file was replaced has the original bytes |
| ChunkManifest.BuildChunkManifest | internal/firmware/ota.go:455-501 | the loop builds the manifest; an empty file is refused |
| ChunkManifest.ReadChunkData | internal/firmware/ota.go:594-619 | short, missing and altered data are refused as specified |
| FlashJobs.ProgressIsPercentage | internal/firmware/ota.go:564-576 | progress is the percentage of transferred chunks, rounded down, between 0 and 100, and 100 when all are |
| FlashJobs.MarkTransferredSound | internal/firmware/ota.go:137-173 | marking keeps count, progress and marks in agreement, keeps every earlier mark, and completes the job with its last chunk |
| FlashJobs.CompleteSound | internal/firmware/ota.go:503-527 | completing gives a sound record with all chunks marked and progress 100 |
| FlashJobs.AdvancingNeverLosesProgress | internal/firmware/ota.go:88-105 | a record that keeps its marks never has fewer transferred chunks or less progress |
| FlashJobs.UnsentListsUnmarked | internal/firmware/ota.go:225-240 | the unsent list has exactly the unmarked chunks, ascending |
| FlashJobs.MarkingFirstUnsent | internal/firmware/ota.go:225-240 | marking the first unsent chunk removes exactly it, the measure by which a pump ends |
| FlashJobs.FirstOccurrencesAreExact | internal/firmware/ota.go:578-592 | each distinct index in range is kept once, in the order of first occurrence, and nothing else |
| FlashJobs.UniqueValidChunkIndexes | internal/firmware/ota.go:578-592 | the loop computes those first occurrences |
| FlashJobs.MissedIndexesAreDecoded | internal/protocol/tcp/client.go:419-425 | what a device writes as missed indexes is decoded, a trailing odd byte ignored |
| FlashJobs.ReadMissedChunkIndexes | internal/protocol/tcp/client.go:419-425 | the loop decodes the payload two bytes at a time |
| FlashService.FlashJob.MarkChunk | internal/firmware/ota.go:150-159 | sets a queued record running, and marks and counts a chunk once |
| FlashService.FlashJob.FirstUnsent | internal/firmware/ota.go:234-238 | finds the first unsent chunk, or that there is none |
| FlashService.Service.MarkFlashJobRunning | internal/firmware/ota.go:88-105 | the record is set running and saved, or not saved at all |
| FlashService.Service.FailLoadedJob | internal/firmware/ota.go:313-330 | the record in hand is failed and saved, overwriting the stored one |
| FlashService.Service.CompleteLoadedJob | internal/firmware/ota.go:503-527 | the loop marks all chunks; the record is completed and saved |
| FlashService.Service.MarkFlashChunkTransferred | internal/firmware/ota.go:137-173 | marks one chunk of the stored job exactly as specified, or changes nothing |
| FlashService.Service.SendFlashChunk | internal/firmware/ota.go:175-223 | sends the chunk's own bytes once and marks it only if they were accepted; a refused send or completion leaves the stored job failed |
| FlashService.Service.SendNextFlashChunk | internal/firmware/ota.go:225-240 | sends exactly the first unsent chunk, or completes the job when none is left |
| FlashService.Service.PumpFlashJob | internal/firmware/ota.go:125-135 | terminates; without error it sent the unsent chunks in increasing order, all of them, or only the first of several when the job had failed before; it then ended completed, or failed again, and notified the device once if it completed by sending |
| FlashService.Service.ActiveFlashJobForDevice | internal/firmware/ota.go:383-411 | the most recently updated job under way, or else the most recent completed one |
| FlashService.Service.RetryMissedFlashChunks | internal/firmware/ota.go:253-283 | each distinct valid index is resent once in order, nothing else; more than ten fail the job with no send |
| FlashService.Service.AbortDeviceFlash | internal/firmware/ota.go:285-298 | fails the active job with the message and touches no other |
| FlashService.Service.StartFlashJob | internal/firmware/ota.go:79-86 | sets any stored job running, whatever its status, and touches no other |
| FlashService.Service.FailFlashJob | internal/firmware/ota.go:300-311 | fails any stored job and touches no other |
| FlashService.Service.CompleteFlashJob | internal/firmware/ota.go:242-251 | completes any stored job, whatever its status, and touches no other |
| FlashService.Service.StartDeviceFlash | internal/firmware/ota.go:17-77 | flashes the firmware referred to or the current one, with the binary and size of its record; after any run of catalogue operations, overlapping ones included, the size is that of the binary while the record describes it; the job ends completed with every chunk sent once, in order |
| FlashService.Service.FlashFirmware | internal/firmware/ota.go:34-76 | adds one job for the binary; with a transport and no error it ends completed with every chunk of the binary sent once, in order |
| FlashService.Service.HasFlashJobForDevice | internal/firmware/ota.go:413-434 | whether the device has a job for the firmware that has not failed; none is found when the jobs cannot be read |
| FlashService.Service.CheckAndStartProductFirmwareUpdate | internal/firmware/selection.go:35-79 | flashes only a firmware that is due, and the designated one unless a version is pinned; if the jobs can be read, only when no job for it is live, which keeps one live job per device and firmware; when nothing is started, nothing was due or a job was live |
| FlashInterleaving.EveryRunIsSafe | internal/firmware/ota.go:137-240 | every stored record and every record an operation has in hand is backed by accepted deliveries, under every interleaving |
| FlashInterleaving.MarkedMeansAccepted | internal/firmware/ota.go:175-223 | a chunk is marked, and a job completed, only after the transport accepted the chunk or all chunks, with the bytes of the original binary |
| FlashInterleaving.StoredJobsAreSound | internal/firmware/ota.go:137-173 | under every interleaving of all operations a stored job stays, its count, progress and status agree with its marks, and its device, firmware, size and chunks never change |
| FlashInterleaving.JobsKeepProgress | internal/firmware/ota.go:88-105 | while operations on one job do not overlap, its marks, transferred count and progress never decrease, whatever fails and whatever other jobs do |
| FlashInterleaving.OverlappingSendsLoseAMark | internal/firmware/ota.go:203-213 | two overlapping sends, one of them rejected, lose a stored mark and lower the count |
| FlashInterleaving.AutomaticRunsKeepOneLiveJob | internal/firmware/selection.go:66-78 | however pumps, retries, aborts and restarts overlap, a device has at most one job per firmware that has not failed, as long as checks that find none, and flashes by hand, start while nothing is under way for the two |
| FlashInterleaving.OverlappingChecksDuplicate | internal/firmware/selection.go:66-78 | two automatic checks that both look before either creates its job leave two live jobs |
| FlashInterleaving.LateRetryDuplicates | internal/firmware/ota.go:203-213 | one automatic check leaves two live jobs when the completed job it replaces was aborted during the send of a retry |
| FlashInterleaving.UnreadableJobsDuplicate | internal/firmware/ota.go:421-424 | a check that cannot read the jobs creates another one beside a live job |
| OtaDelivery.ChunkRequestSize | internal/protocol/tcp/client.go:381-403 | the encoded size of a chunk request, 17 bytes over the chunk size with an index |
| OtaDelivery.FullChunkFits | internal/protocol/framing/framing.go:65-68 | a full chunk fits a frame if and only if the chunk size is at most 65470, or 65473 without an index |
| OtaDelivery.AnnouncedSize | internal/protocol/tcp/client.go:366-379 | the announced binary size is the size modulo 2^32 |
| OtaDelivery.DeviceRecoversExactly | internal/protocol/tcp/client.go:366-403 | ordering by index and cutting to the announced size recovers the binary, in any order and with repeats, if and only if there are at most 65536 chunks and the size is right, or too large with no padding |
| OtaDelivery.DeviceRecoversBinary | internal/protocol/tcp/client.go:366-403 | with the binary's own size announced the binary is recovered if and only if there are at most 65536 chunks; the size then fits its field |
| OtaDelivery.StreamCarriesBinary | internal/protocol/tcp/client.go:150-172 | the same from the encrypted bytes on the stream |
| OtaDelivery.CompletedJobIsOnDevice | internal/protocol/tcp/client.go:366-379 | under every interleaving, the chunks accepted for a completed job carry its binary to the device if and only if the size in its record, which is announced, meets that condition |
| RequestTable.WindowIsPermutation | internal/protocol/tcp/client.go:307-314 | any 65535 consecutive IDs are 1 to 65535, each once |
| RequestTable.CounterFollowsIds | internal/protocol/tcp/client.go:307-314 | the wrapping counter issues exactly that sequence |
| RequestTable.IdsAreIssuedInSequence | internal/protocol/tcp/client.go:307-314 | with increment and reset as two steps, any number of callers are issued the sequence as long as none increments while another resets |
| RequestTable.MeetingAtTheResetRepeats | internal/protocol/tcp/client.go:307-314 | two callers that meet at the last ID are both given 1 |
| RequestTable.InSequenceExactly | internal/protocol/tcp/client.go:307-314 | for any number of callers the IDs are issued in sequence if and only if each reset is made while 65535 is the latest ID issued |
| RequestTable.EveryRunIsCoherent | internal/protocol/tcp/client.go:182-322 | in every run, with look-up and send as two steps: no channel is closed twice, the two maps agree and hold open requests in flight only, and every response found a request in flight which it answers |
| RequestTable.EveryRunIsConsistent | internal/protocol/tcp/client.go:182-322 | while no request outlives the window, no open request ever loses its entries |
| RequestTable.EntriesLiveWithRequests | internal/protocol/tcp/client.go:193-198 | both maps have an entry for a request exactly while it is in flight with an open channel |
| RequestTable.LookUpFindsRequest | internal/protocol/tcp/client.go:270-278 | a response goes to the request with its ID, or with its token when no open request has that ID |
| RequestTable.OneAnswerPerRequest | internal/protocol/tcp/client.go:204-215 | in every run a request receives at most one response; each arrival is received by at most one request, which was in flight when it arrived and which it answers |
| RequestTable.PanicsExactlyWhenOvertaken | internal/protocol/tcp/client.go:270-284 | a run sends on a closed channel if and only if a close falls between the look-up of a response and its send, on the channel it found; nothing is closed twice |
| RequestTable.CloseOvertakesResponse | internal/protocol/tcp/registry.go:85-94 | from every state in which a response finds a request, such a close makes the send panic |
| RequestTable.OldRequestEvictsNew | internal/protocol/tcp/client.go:316-322 | a request still in flight as its ID comes round takes the new request's entries away when it returns |
| RequestTable.BeginKeepsExactly | internal/protocol/tcp/client.go:193-197 | registering a request keeps the table consistent if and only if no open request holds its ID |
| RequestTable.Client.NextMessageId | internal/protocol/tcp/client.go:307-314 | issues the next ID of the sequence |
| RequestTable.Client.RegisterRequest | internal/protocol/tcp/client.go:182-197 | both entries and a fresh channel, and nothing else |
| RequestTable.Client.RemovePending | internal/protocol/tcp/client.go:316-322 | removes exactly the two entries of a request |
| RequestTable.Client.FindResponse | internal/protocol/tcp/client.go:266-278 | under the lock a response finds the channel of its request, by ID or else by token |
| RequestTable.Client.OfferResponse | internal/protocol/tcp/client.go:280-284 | the send does not block, drops a second response, and panics exactly on a channel closed meanwhile |
| RequestTable.Client.CloseWithError | internal/protocol/tcp/client.go:294-305 | closes every pending channel once and empties both maps |
| EventBroker.EveryRunIsOpenWhileSubscribed | internal/events/service.go:50-68 | under every interleaving the lock allows, subscribers are exactly the open channels, and nothing is sent on or closed twice |
| EventBroker.EveryRunIsTracked | internal/events/service.go:100-114 | under every such interleaving each subscription is offered exactly the matching publishes of its time, each once, except those that have yet to reach it; its stream is what was kept, and an event is lost exactly when 16 are buffered |
| EventBroker.StreamsFollowPublishes | internal/events/service.go:100-137 | with publishes one at a time the offers are the matching events in the order of publishing |
| EventBroker.EndedPublishesPrecede | internal/events/service.go:100-114 | under every interleaving, a publish that ended before another began precedes it in every stream |
| EventBroker.OverlappingPublishesReorder | internal/events/service.go:100-114 | overlapping publishes can reach a subscriber out of order |
| EventBroker.MidwayVisits | internal/events/service.go:104-113 | a subscriber not yet visited is offered the event, and nothing else changes |
| EventBroker.AnyVisitOrder | internal/events/service.go:104-113 | a publish comes out the same for every order in which it visits the subscribers |
| EventBroker.Service.Subscribe | internal/events/service.go:50-67 | adds one open subscription with an empty buffer |
| EventBroker.Service.Cancel | internal/events/service.go:59-65 | removes the subscription and closes its channel, once |
| EventBroker.Service.PublishToSubscribers | internal/events/service.go:100-114 | adds the event to every matching subscription with room and to no other |
| EventBroker.Service.Next | internal/events/service.go:67-67 | a receiver takes the oldest buffered event |
| FirmwareCatalog.EveryRunKeepsOneCurrent | internal/firmware/metadata.go:323-345 | in every state reached, with edits saved any time after they loaded their record, whatever is done between the parts of a designation and whichever saves failed, at most one firmware of a product is current, as long as designations of the product do not overlap and no current flag loaded before one is saved after it; no version is 0 |
| FirmwareCatalog.StoringKeepsOneCurrentExactly | internal/firmware/metadata.go:152-188 | storing a designated or edited firmware leaves one current if and only if it is not current itself or no other firmware of the product is current by then |
| FirmwareCatalog.OverlappingDesignationsLeaveTwo | internal/firmware/metadata.go:176-188 | two designations that both clear before either stores leave two firmwares current |
| FirmwareCatalog.StaleSaveLeavesTwo | internal/firmware/metadata.go:152-162 | after every run, releasing the current firmware across the designation of another leaves two firmwares current |
| FirmwareCatalog.OtherProductsUntouched | internal/firmware/metadata.go:16-345 | no operation changes, adds or removes a record of another product |
| FirmwareCatalog.FlagsMarkLastDesignated | internal/firmware/metadata.go:262-269 | in runs that never clear only one flag nor save a record loaded before another effect, default equals current, and they mark exactly the firmware designated last |
| FirmwareCatalog.StaleDefaultIsServed | internal/firmware/selection.go:90-94 | after clearing only the current flag, the next designated firmware may not be the one served |
| FirmwareCatalog.UpdatesThatPair | internal/firmware/metadata.go:218-269 | an update leaves the flags in agreement if and only if it designates, the firmware was not current, or it clears both flags or neither |
| FirmwareCatalog.UpdatesConverge | internal/firmware/selection.go:11-33 | across an install: what a check offered is newer than what the device reports, and once installed the next check offers nothing, to a device that reports the version always, to one that reports the ID while the check follows a designation |
| FirmwareCatalog.ServedIsFirst | internal/firmware/selection.go:90-98 | the firmware served is the oldest marked one, or else the newest |
| FirmwareCatalog.EveryRecordHasOrigin | internal/firmware/metadata.go:237-276 | however late records are saved, each names a binary that was once written for it |
| FirmwareCatalog.RecordsDescribeTheirFiles | internal/firmware/metadata.go:192-278 | in every run of overlapping operations a record has the size and checksum of its file while it names the binary written last, traced through loads and saves, and that file was not removed since |
| FirmwareCatalog.RecordDescribesExactly | internal/firmware/ota.go:45-46 | in every run a record describes its file if and only if the file has the bytes the record was made for |
| FirmwareCatalog.SavedReplacementsDescribe | internal/firmware/metadata.go:237-276 | while no edit of a firmware overlaps a replacement of its binary, its record describes its file if and only if the last replacement was saved |
| FirmwareCatalog.StaleSaveMisdescribes | internal/firmware/metadata.go:152-162 | after every run, an edit loaded before a replacement and saved after it brings the old size and checksum back, with no save failing |
| FirmwareCatalog.FailedSaveMisdescribes | internal/firmware/metadata.go:237-276 | after every run, a replacement whose record cannot be saved leaves the old size and checksum |
| FirmwareCatalog.Service.WriteBinary | internal/firmware/metadata.go:347-395 | a binary is written completely or not at all, an empty one is refused, and the result describes it |
| FirmwareCatalog.Service.ListProductFirmware | internal/firmware/metadata.go:86-109 | the records of the product, each once, by version and then age |
| FirmwareCatalog.Service.GetProductFirmware | internal/firmware/metadata.go:111-145 | finds by ID, or else the oldest record with the version, within the product only |
| FirmwareCatalog.Service.NextVersion | internal/firmware/metadata.go:308-321 | above every version of the product, and at least 1 |
| FirmwareCatalog.Service.ClearCurrent | internal/firmware/metadata.go:323-345 | clears both flags of the current firmware; a failed save leaves everything as it was |
| FirmwareCatalog.Service.UploadProductFirmware | internal/firmware/metadata.go:17-84 | the record and the binary that are stored, when the firmware is designated, and what remains after each failure |
| FirmwareCatalog.Service.ReleaseProductFirmware | internal/firmware/metadata.go:147-165 | sets one flag of the referenced record, and every record describes its file as before |
| FirmwareCatalog.Service.SetDefaultProductFirmware | internal/firmware/metadata.go:167-190 | designates the referenced record, or after a failure at most clears the flags |
| FirmwareCatalog.Service.UpdateProductFirmware | internal/firmware/metadata.go:192-278 | the edited record and the replaced binary, designated when either flag is set; what remains of both after each failure; with a new binary the record describes its file exactly when the update succeeds, and the others as before |
| FirmwareCatalog.Service.DeleteProductFirmware | internal/firmware/metadata.go:280-306 | removes the referenced record and its binary unless a job under way uses it |
| FirmwareCatalog.Service.CurrentProductFirmware | internal/firmware/selection.go:81-99 | the firmware designated last while it is still designated and stored, or else the newest |
| FirmwareCatalog.Service.CheckProductFirmwareUpdate | internal/firmware/selection.go:11-33 | which firmware is chosen, and exactly when it is offered |
| WebhookBackoff.BackoffFor | internal/webhooks/service.go:316-328 | the minimum of an hour and 2^(n-1) minutes for every n, with no int64 overflow |
| WebhookBackoff.BackoffGrows | internal/webhooks/service.go:316-328 | the wait never shrinks, and is an hour exactly from the seventh failure on |
| WebhookBackoff.AttemptsAreSpaced | internal/webhooks/service.go:237-242 | in a spaced history, after n failures in a row the next attempt comes no earlier than the first plus all waits in between |
| WebhookInterleaving.DeliveriesAreSpaced | internal/webhooks/service.go:173-273 | however deliveries overlap, the stored counters follow the history of a webhook and each request to it is sent when due, as long as nothing else saves it between a delivery's list and its record |
| WebhookInterleaving.RequestsAreSpaced | internal/webhooks/service.go:237-273 | in such runs the next request after n failures comes no earlier than the first plus all waits in between |
| WebhookInterleaving.RecordKeepsExactly | internal/webhooks/service.go:244-273 | a record of a webhook listed earlier keeps the counters right if and only if it was delivered or no other failure was counted meanwhile, and the spacing if and only if the request was due by the webhook now stored |
| WebhookInterleaving.OverlappingDeliveriesCrowd | internal/webhooks/service.go:178-193 | from every state with a due webhook, two deliveries that both list it first send two requests at once and count one failure |
| WebhookInterleaving.LateRecordUndoes | internal/webhooks/service.go:244-273 | a record after an edit restores the old details, and after a deletion the webhook |
| WebhookBackoff.Service.RecordFailure | internal/webhooks/service.go:257-273 | counts the failure and sets the next attempt by the back-off; the counters say what the history says |
| WebhookBackoff.Service.RecordSuccess | internal/webhooks/service.go:244-255 | forgets the failures |
| WebhookBackoff.Service.Deliver | internal/webhooks/service.go:198-235 | a request that is sent is recorded as delivered below status 400 and as failed otherwise; one that cannot be built is not recorded |
| WebhookBackoff.Service.DeliverEvent | internal/webhooks/service.go:173-196 | every matching, sendable, due webhook is attempted exactly once, and the others stay as they are |
| WebhookBackoff.Service.Update | internal/webhooks/service.go:131-163 | the owner's edit changes what the request names, never the owner, and forgets the failures |
| WebhookBackoff.Service.Create | internal/webhooks/service.go:64-90 | what is stored, and which requests are refused |
| WebhookBackoff.Service.Get | internal/webhooks/service.go:113-129 | finds a webhook for its owner only |

## Left out

- SessionStream.ServeSession: the verdict on a packet is a parameter, and what runs after a reply (`AfterResponse`) is left out.
- RequestTable.EveryRunIsConsistent: requests use allocated IDs and default tokens; none of the client's own callers supply others.
- FlashInterleaving.MarkedMeansAccepted: a binary is read in one step; direct calls of CompleteFlashJob and MarkFlashChunkTransferred are excluded because they mark without sending.
- FlashInterleaving.AutomaticRunsKeepOneLiveJob: any job of the device that has not failed may be the active one, which allows more runs than the choice by update time; an automatic check looks and reads the binary in one step.
- FlashService.Service.StartDeviceFlash: the branches for a service without a job store are left out.
- FlashService.Service.CheckAndStartProductFirmwareUpdate: how a device record yields its product, version and firmware ID, and the product's pinned version, are parameters.
- FlashService.Service.ActiveFlashJobForDevice: its read of the jobs does not fail; of several jobs updated at the same time, any may be chosen.
- OtaDelivery.DeviceRecoversExactly: the device is a model of this project, written from the chunk options; a device that negotiated no chunk indexes (protocol version 0) must rely on arrival order and is not modelled. One version covers all chunks of a job; a device that reconnects in the middle gets a client at version 0.
- Sorting.SortSlice: above 12 elements only order and contents are known of `sort.Slice`.
- EventBroker.Service.PublishToSubscribers: storing the event first and delivering to sinks afterwards are left out.
- FirmwareCatalog.EveryRunKeepsOneCurrent: clearing the flags takes effect at its save and keeps the rest of the record; a clear that writes back older details or an older binary is a late save (`WrittenBack`), of which the theorems on files speak.
- FirmwareCatalog.UpdatesConverge: records of one product with the same version and the same age may be chosen in any order.
- WebhookInterleaving.DeliveriesAreSpaced: an edit loads and saves in one step, with any details; the clock does not run backwards.
- WebhookBackoff.Service.RecordFailure: the error text and the time of the last delivery are not stored.
- The texts of transport errors: a refusal is recorded under a fixed text.
- Job timestamps other than the last update, job product IDs and versions, and the events published about jobs.
- Acknowledgement codes and checksums of chunk responses (`validateChunkAck`): the transport's answer is accepted or refused.
- The chunk request for missed chunks and the abort signal as packets (`handleOTAControl`): the operations they start are modelled, their dispatch is not.
- RSA, AES, HMAC, SHA-256 and CRC-32: functions with the stated laws.
- Sockets, deadlines, the connection registry, the handshake and its frames, JSON descriptions of devices.
- HTTP handlers, server-sent events, webhook templates, configuration, and the records of products, devices and users.
- The file layout of the stores: a store is a map that hands out copies.
