# Eufy event gateway: a verified model

The gateway keeps long-lived state about cameras and HomeBases, fed by byte
streams that arrive in arbitrary pieces and by events that interleave in
arbitrary order. This project models that state and those streams in Dafny and
proves what every run of them keeps. `dafny verify dfyconfig.toml` checks it.

The modules follow the program:

- `Jpeg`: images cut out of FFmpeg's output.
- `McsWire`, `McsReceiver`: the push connection's framing. `McsWire` reads a
  whole stream at once and writes what the client writes; `McsReceiver` is the
  class with five fields and mutually recursive methods that gets the stream in
  chunks.
- `PpcsFrames`, `PpcsReassembly`, `PpcsSessions`: frames inside numbered
  datagrams, one stream per datagram type, the two session classes that
  reassemble them and the commands one of them writes.
- `IdentityCodecs`: device identities and the obfuscated cloud address list.
- `HomeBaseWaiters`: the four reply slots of a HomeBase session.
- `LiveStream`, `LiveStreamSession`: viewers, leases, the grace timer, the
  source and the recordings of one camera.
- `Snapshots`: the durable image store and its index.
- `StationOperations`: the chain of HomeBase operations of one station.
- `ConfirmedWrites`: these operations and the reply slots of a session together.
- `Gateway`: the camera registry, its hold timers and its events.
- `EventStream`, `Replica`: the event stream's text, the client's line parser
  and the coordinator's copy of the cameras.

How it is built. An object whose methods change its fields is a class with
those fields. For a parser a function reads the whole stream; for an
asynchronous object a function says what one step does, and a run is any list
of steps in any order. The theorems are about every stream and every run. The
objects are tied to them by a history of their steps: `Valid()` says that an
object is where reading its bytes, or running its steps, ends, and every
method that a caller uses keeps it. What runs keep then holds of the object,
and the contracts say so: for the media session, the reply slots, the snapshot
store, the station and the camera registry this is `Kept()`, ensured by each of
these methods. An asynchronous function is split at its awaits, and each piece
is a step. A timer is an armed entry with the time it is due; it may fire at
any moment from then on. A promise is a slot whose settlements are counted. The
disk is a map from paths to files in which a rename is one step and a crash
loses everything else. Fields marked as history are not in the program; they
record what happened so that it can be spoken about. `ClockAdvances` and `Dies`
are steps of the world, not of the program. The contracts of the objects' methods
say what each call makes of every field, byte and event in their own terms, and
the functions that the run theorems use are tied to these and to definitions
over the events alone (`AfterLoss`, `DeliveredAt`, `LatestSnapshot` and others).

Four properties one would expect are false of the code. Each has a run that
shows it, and the exact condition under which it holds, for every run:

- A frame can be glued from stale bytes after a throw
  (`PpcsReassembly.ThrowLeavesStaleBytes`); exactly the stale bytes of the same
  type do it (`PpcsReassembly.NoFrameStraddlesALoss`,
  `PpcsReassembly.HeldIsRunSuffix`).
- A source attached while the session is stopping is orphaned
  (`LiveStream.AttachWhileStoppingOrphans`, `LiveStream.NeverOrphanedIff`). This
  is a property of `LiveStreamManager` with any `StreamController`: the two
  providers in the repository report the end of a stream, and so `markStopped`,
  before their `stopStream` returns
  (`eufy_event_gateway/src/provider/eufy-provider.ts:170-174`,
  `eufy_event_gateway/src/main.ts:125-127`), and leave no such moment.
- An abandoned start that rejects late disowns a newer source
  (`LiveStream.LateRejectionDisowns`, `LiveStream.AlwaysOwnedIff`).
- A pressed doorbell can stay pressed (`Gateway.DoorbellSticks`,
  `Gateway.AgreesIffClearsWork`).

The documentation says that temporary detection flags are cleared after the
hold unless a newer notification refreshes them
(`eufy_event_gateway/src/domain/gateway-state.ts:43-49`); the code skips the
clear of a doorbell whose camera lost its doorbell in between, and the model
follows the code.

## Model

| member | source | states |
|---|---|---|
| Jpeg.IndexOf | eufy_event_gateway/src/stream/jpeg-parser.ts:18-24 | the first marker of a kind at or after a position, and nothing exactly when there is none |
| Jpeg.ScanResumes | eufy_event_gateway/src/stream/jpeg-parser.ts:14-33 | a stream cut in two anywhere, with only the kept suffix between the pieces, gives the same images and the same kept suffix as the whole stream |
| Jpeg.ChunksDoNotMatter | eufy_event_gateway/src/stream/jpeg-parser.ts:14-33 | for every list of chunks, the images and the bytes kept are those of one scan of their concatenation |
| Jpeg.ScanRecovers | eufy_event_gateway/src/stream/jpeg-parser.ts:14-33 | images without an inner end marker, after noise without a start marker, are recovered exactly, in order, with nothing else; the joins need no condition |
| Jpeg.ChunkedOutputIsRecovered | eufy_event_gateway/src/stream/jpeg-parser.ts:10-33 | the same under every cut of FFmpeg's output into chunks |
| Jpeg.ScanFirst | eufy_event_gateway/src/stream/jpeg-parser.ts:14-33 | noise, one image and any continuation: the image is found and the continuation is scanned as if alone |
| Jpeg.OpenImageIsKept | eufy_event_gateway/src/stream/jpeg-parser.ts:25-30 | an image that has begun and not ended is kept whole, and the noise before it is dropped |
| Jpeg.JpegParser.Push | eufy_event_gateway/src/stream/jpeg-parser.ts:14-33 | the object's pushes return, one after the other, exactly the images of one scan of everything pushed, and it keeps exactly that scan's rest |
| McsWire.VarintMeans | eufy_event_gateway/src/mega/android-push/parser.ts:111-117 | a length's value are the low seven bits of its bytes, the lowest first, up to the first byte that announces no other; incomplete exactly without such a byte below ten, malformed exactly without one among ten |
| McsWire.VarintRoundTrip | eufy_event_gateway/src/mega/android-push/push-client.ts:159-192 | a length written as a varint is read back exactly and nothing behind it is touched |
| McsWire.VarintStable | eufy_event_gateway/src/mega/android-push/parser.ts:110-123 | a decided length is not changed by bytes that arrive later |
| McsWire.SignedReadings | eufy_event_gateway/src/mega/android-push/parser.ts:98-125 | tags are bytes and lengths are 32-bit numbers, both read as two's complement |
| McsWire.VersionIsChecked | eufy_event_gateway/src/mega/android-push/parser.ts:97-102 | nothing is decided before three bytes; then a connection is refused exactly when its first byte, as a signed number, is below 38 |
| McsWire.LongFrameIsRefused | eufy_event_gateway/src/mega/android-push/parser.ts:125 | after any frames, a length above 2 MiB ends the stream; those frames were delivered and nothing more is |
| McsWire.EndlessLengthIsRefused | eufy_event_gateway/src/mega/android-push/parser.ts:111-118 | ten bytes that all announce another one are an error |
| McsWire.PartialBodyWaits | eufy_event_gateway/src/mega/android-push/parser.ts:126-145 | with part of a body the receiver waits, holding exactly that part, its tag and its length |
| McsWire.StreamContinues | eufy_event_gateway/src/mega/android-push/parser.ts:60-161 | chunk independence: reading on from the five fields after `a` with `b` delivers, keeps and fails exactly as reading `a + b`; after an error nothing more is delivered |
| McsWire.ChunksDoNotMatter | eufy_event_gateway/src/mega/android-push/parser.ts:60-161 | for every list of chunks, the frames, all five fields and the error are those of one reading of their concatenation |
| McsWire.StreamRests | eufy_event_gateway/src/mega/android-push/parser.ts:66-161 | between chunks the receiver holds less than its state still needs: part of a version, of a header, of a length or of one body |
| McsWire.ResidueIsSmall | eufy_event_gateway/src/mega/android-push/parser.ts:60-64 | what it holds is below 2 MiB, so chunks of up to 2 MiB never meet the 4 MiB limit |
| McsWire.FrameRoundTrip | eufy_event_gateway/src/mega/android-push/push-client.ts:181-192 | one frame in the written layout, with anything behind it, is read back exactly and the rest is read as before |
| McsWire.StreamRoundTrip | eufy_event_gateway/src/mega/android-push/push-client.ts:159-192 | a version byte and any list of frames with tags 0 to 127 and bodies up to 2 MiB are parsed back to exactly that list, with nothing left over |
| McsWire.ChunkedRoundTrip | eufy_event_gateway/src/mega/android-push/parser.ts:97-161 | the same under every cut of the stream into chunks |
| McsReceiver.McsParser.HandleData | eufy_event_gateway/src/mega/android-push/parser.ts:60-64 | after every chunk the five fields and the emitted frames are those of one reading of all bytes fed; an error is that reading's error, after that reading's frames; the buffer limit cannot fire for chunks up to 2 MiB |
| McsReceiver.McsParser.Reset | eufy_event_gateway/src/mega/android-push/parser.ts:51-57 | the receiver starts a new stream |
| McsReceiver.McsParser.WaitForData | eufy_event_gateway/src/mega/android-push/parser.ts:66-95 | performs what reading on from its fields prescribes; the mutual recursion ends by bytes left and state rank |
| McsReceiver.McsParser.OnVersion | eufy_event_gateway/src/mega/android-push/parser.ts:97-102 | the version branch, as the whole-stream reading has it |
| McsReceiver.McsParser.OnTag | eufy_event_gateway/src/mega/android-push/parser.ts:104-108 | the tag branch, as the frame reading has it |
| McsReceiver.McsParser.OnSize | eufy_event_gateway/src/mega/android-push/parser.ts:110-134 | the length branch, with its incomplete, malformed, out-of-range and empty-body cases |
| McsReceiver.McsParser.OnBytes | eufy_event_gateway/src/mega/android-push/parser.ts:136-156 | the body branch: an empty frame, a wait, or a frame and on |
| McsReceiver.McsParser.Next | eufy_event_gateway/src/mega/android-push/parser.ts:158-161 | back to a frame boundary |
| PpcsFrames.ScanResumes | eufy_event_gateway/src/stream/first-party-ppcs.ts:176-194 | cutting the bytes of one type anywhere and keeping only the rest finds the same frames; an oversize header ends the stream for good |
| PpcsFrames.ScanCutsOut | eufy_event_gateway/src/stream/first-party-ppcs.ts:176-194 | every frame found is a contiguous piece of the bytes, and what is kept is their end |
| PpcsFrames.ScanRecovers | eufy_event_gateway/src/stream/homebase-ppcs.ts:252-264 | well-formed frames laid end to end are found again exactly, with nothing left over |
| PpcsFrames.FrameFirst | eufy_event_gateway/src/stream/homebase-ppcs.ts:252-264 | one well-formed frame and any continuation: the frame is found and the continuation is scanned as if alone |
| PpcsFrames.Layout | eufy_event_gateway/src/stream/homebase-ppcs.ts:252-261 | where magic, command, size, channel, sign code and result flag stand, that sizes above 16777216 are oversize, and what a whole frame is cut into |
| PpcsReassembly.RunIsParsed | eufy_event_gateway/src/stream/first-party-ppcs.ts:172-195 | between two sequence jumps a type's frames and its kept bytes are those of one parse of its payloads, whatever the fragmentation, the interleaving of types and the past |
| PpcsReassembly.Reassembles | eufy_event_gateway/src/stream/homebase-ppcs.ts:247-265 | when a type's numbers never jump, its frames are those of its payloads laid end to end |
| PpcsReassembly.SenderReassembles | eufy_event_gateway/src/stream/homebase-ppcs.ts:247-265 | frames fragmented over datagrams numbered consecutively modulo 65536 are delivered whole and in order |
| PpcsReassembly.DeliveriesOfKind | eufy_event_gateway/src/stream/first-party-ppcs.ts:172-195 | the common log of deliveries, seen one type at a time, is that type's frames |
| PpcsReassembly.HeldIsIncomplete | eufy_event_gateway/src/stream/first-party-ppcs.ts:172-195 | between datagrams no type holds a whole frame, in either session, after throws too |
| PpcsReassembly.HeldIsRunSuffix | eufy_event_gateway/src/stream/homebase-ppcs.ts:247-265 | what a type holds is the end of what arrived since its last jump if and only if it is not stale; only a throw of that type makes it stale, and a jump, a completed frame or a coincidence at a later throw ends it |
| PpcsReassembly.ThrowIsSeen | eufy_event_gateway/src/stream/homebase-ppcs.ts:255 | a throw makes what is held stale exactly when these bytes are not repeated at the end of themselves and the datagram |
| PpcsReassembly.NoFrameStraddlesALoss | eufy_event_gateway/src/stream/first-party-ppcs.ts:172-195 | for arbitrary datagrams and both sessions, the first frame of a datagram stands in what arrived for its type since the last jump, just where its bytes were held and received, if and only if the bytes held were not stale; all further frames lie in the datagram itself |
| PpcsReassembly.LossStartsOver | eufy_event_gateway/src/stream/first-party-ppcs.ts:172-195 | when a datagram neither repeats the number of the newest one of its type nor comes right after it, modulo 65536, nothing is held for it: its frames lie in its own bytes, which alone are what arrived since; otherwise everything held is kept and continued |
| PpcsReassembly.JumpsIffLost | eufy_event_gateway/src/stream/first-party-ppcs.ts:173-174 | the sessions take a loss for one exactly when the numbers say so |
| PpcsReassembly.DroppingIsClean | eufy_event_gateway/src/stream/first-party-ppcs.ts:183 | the session that drops its pending bytes at an oversize header never holds stale ones |
| PpcsReassembly.ThrowLeavesStaleBytes | eufy_event_gateway/src/stream/homebase-ppcs.ts:255 | the session that throws does: three datagrams after which it delivers a frame that never was on the wire |
| PpcsSessions.FirstPartyPpcsSession.HandleDataMessage | eufy_event_gateway/src/stream/first-party-ppcs.ts:160-168 | the data branch: the acknowledgement byte by byte, and which datagrams are consumed, by their type bytes; frames and buffers stay those of the datagrams so far |
| PpcsSessions.FirstPartyPpcsSession.ConsumeData | eufy_event_gateway/src/stream/first-party-ppcs.ts:172-195 | what was held is kept exactly when the numbers show no loss; the frames of it and the new bytes are delivered, and the rest stored or, behind an oversize header, dropped |
| PpcsSessions.HomeBasePpcsSession.Handle | eufy_event_gateway/src/stream/homebase-ppcs.ts:224-245 | the first CAM_ID fixes the peer; only later data messages are consumed, each acknowledged first; a matching lookup is answered; every reply byte by byte, and nothing else is sent or changed |
| PpcsSessions.HomeBasePpcsSession.ConsumeData | eufy_event_gateway/src/stream/homebase-ppcs.ts:247-265 | what was held is kept exactly when the numbers show no loss; the frames before an oversize header are delivered, and there it throws with its bytes as they were |
| PpcsSessions.HomeBasePpcsSession.SendCommand | eufy_event_gateway/src/stream/homebase-ppcs.ts:382-392 | refuses without a peer and then changes nothing; otherwise sends exactly one message under the next number |
| PpcsSessions.HomeBasePpcsSession.Send | eufy_event_gateway/src/stream/homebase-ppcs.ts:388-392 | one message: header, length modulo 65536, payload |
| PpcsSessions.AcknowledgementBytes | eufy_event_gateway/src/stream/homebase-ppcs.ts:239-241 | an acknowledgement byte by byte: the type's two bytes, count one, the number |
| PpcsSessions.ReplyBytes | eufy_event_gateway/src/stream/homebase-ppcs.ts:227-234 | the ping and the check byte by byte |
| PpcsSessions.CommandBytes | eufy_event_gateway/src/stream/homebase-ppcs.ts:382-392 | a command byte by byte: header, length, data header, number, magic, command, payload |
| PpcsSessions.PayloadBytes | eufy_event_gateway/src/stream/homebase-ppcs.ts:457-474 | an encrypted payload byte by byte, and the void payload |
| PpcsSessions.UnsignedStaysClear | eufy_event_gateway/src/stream/homebase-ppcs.ts:268-270 | exactly signed payloads of whole blocks are decrypted |
| PpcsSessions.LongValuesAreRefused | eufy_event_gateway/src/stream/homebase-ppcs.ts:457-470 | a command value is refused exactly when its padded form is longer than 65520 bytes |
| PpcsSessions.CutsPadding | eufy_event_gateway/src/stream/homebase-ppcs.ts:483-487 | the cut at the first NUL takes off exactly the padding of a NUL-free value |
| PpcsSessions.CommandIsReceived | eufy_event_gateway/src/stream/homebase-ppcs.ts:382-392 | a command message is received as one datagram of type 0 under its own number modulo 65536, for every command and payload |
| PpcsSessions.EncryptedHeader | eufy_event_gateway/src/stream/homebase-ppcs.ts:457-470 | the header the command and its payload form together announces the encrypted length and says the command, the channel, sign code 1 and no result |
| PpcsSessions.FrameArrives | eufy_event_gateway/src/stream/homebase-ppcs.ts:247-265 | a datagram that is one whole frame completes exactly that frame and leaves nothing held |
| PpcsSessions.DecryptsToValue | eufy_event_gateway/src/stream/homebase-ppcs.ts:267-271 | decryption gives the padded value back, and for a NUL-free value the cut gives the value |
| PpcsSessions.CommandRoundTrip | eufy_event_gateway/src/stream/homebase-ppcs.ts:224-271 | an encrypted command, sent and received, completes exactly one frame with the same command, channel, sign code and number, which is no result frame and decrypts to the value |
| IdentityCodecs.EncodedFields | eufy_event_gateway/src/stream/homebase-ppcs.ts:534-541 | the twenty bytes of an encoded DID hold the prefix, the number and the suffix in their fields, NUL-padded, cut at the fields' ends, and no hyphen |
| IdentityCodecs.DecodedIsCanonical | eufy_event_gateway/src/stream/homebase-ppcs.ts:543-545 | whatever DID is decoded from hyphen-free fields is canonical |
| IdentityCodecs.CanonicalSurvives | eufy_event_gateway/src/stream/homebase-ppcs.ts:534-545 | a canonical DID is encoded and decoded without loss |
| IdentityCodecs.DidRoundTrip | eufy_event_gateway/src/stream/homebase-ppcs.ts:534-545 | decoding what was encoded gives the DID back if and only if it is canonical: three parts that fit, the number padded to six digits |
| IdentityCodecs.CanonicalNumber | eufy_event_gateway/src/stream/homebase-ppcs.ts:535-545 | a number is printed as it was written exactly if it has six digits, or more and no zero before them |
| IdentityCodecs.PaddedMeans | eufy_event_gateway/src/stream/homebase-ppcs.ts:544 | padding puts zeros before a text, up to six characters |
| IdentityCodecs.DidExample | eufy_event_gateway/src/stream/homebase-ppcs.ts:534-545 | ABC-123456-XYZ survives, with its number in bytes 8 to 11 |
| IdentityCodecs.SplitJoins | eufy_event_gateway/src/stream/homebase-ppcs.ts:535 | splitting at hyphens loses nothing |
| IdentityCodecs.DecimalReads | eufy_event_gateway/src/stream/homebase-ppcs.ts:535-545 | a printed number reads back as itself |
| IdentityCodecs.XorUndoes | eufy_event_gateway/src/stream/first-party-ppcs.ts:325-330 | exclusive or with the same byte undoes itself |
| IdentityCodecs.XorMeans | eufy_event_gateway/src/stream/first-party-ppcs.ts:328 | exclusive or, bit by bit |
| IdentityCodecs.AddressByte | eufy_event_gateway/src/stream/first-party-ppcs.ts:328 | each byte is made from its two letters and the bytes before it |
| IdentityCodecs.MaskedByte | eufy_event_gateway/src/stream/first-party-ppcs.ts:328 | how: the first letter worth sixteen, exclusive or the table, 57 and all bytes before |
| IdentityCodecs.NothingDecoded | eufy_event_gateway/src/stream/first-party-ppcs.ts:328 | the chain starts at 57 |
| IdentityCodecs.TableInDecimal | eufy_event_gateway/src/stream/first-party-ppcs.ts:326 | the key table |
| IdentityCodecs.AddressesDecodeEncoded | eufy_event_gateway/src/stream/first-party-ppcs.ts:325-330 | every byte string is the decoding of a text over the letters A to P |
| IdentityCodecs.AddressesEncodeDecoded | eufy_event_gateway/src/stream/first-party-ppcs.ts:325-330 | and of only one: the byte stage loses nothing on even-length texts over A to P |
| IdentityCodecs.DecodeCloudAddresses | eufy_event_gateway/src/stream/first-party-ppcs.ts:325-330 | the nested loops compute the byte stage for every text, also outside A to P and of odd length |
| IdentityCodecs.RunningAgrees | eufy_event_gateway/src/stream/first-party-ppcs.ts:325-330 | one running exclusive or gives the same bytes as recomputing the chain for each |
| HomeBaseWaiters.WaitersSettleOnce | eufy_event_gateway/src/stream/homebase-ppcs.ts:267-376 | in every run a waiter is in its slot, armed and unsettled, or out of it, disarmed and settled exactly once |
| HomeBaseWaiters.CloseSettlesEverything | eufy_event_gateway/src/stream/homebase-ppcs.ts:204-212 | once closed, no slot is taken, no timer armed and every waiter settled once |
| HomeBaseWaiters.RepliesSettleTheirWaiter | eufy_event_gateway/src/stream/homebase-ppcs.ts:267-308 | a slot empties if and only if the reply is what its waiter waits for; then its timer is disarmed and it alone is settled, a command as resolved exactly on four zero bytes and else with its code; nothing else changes |
| HomeBaseWaiters.OtherRepliesDoNothing | eufy_event_gateway/src/stream/homebase-ppcs.ts:267-308 | a reply nobody waits for changes nothing |
| HomeBaseWaiters.CodeIsRead | eufy_event_gateway/src/stream/homebase-ppcs.ts:272-279 | a result code is four bytes, the lowest first, as two's complement |
| HomeBaseWaiters.RejectAllCloses | eufy_event_gateway/src/stream/homebase-ppcs.ts:355-376 | everybody who waited is told that the session closed, and nobody else is told anything |
| HomeBaseWaiters.ResolvedByItsReply | eufy_event_gateway/src/stream/homebase-ppcs.ts:267-353 | a waiter that resolved was created by a wait and resolved by a later reply to just that waiter; for a command, a result frame of the same command with four zero bytes |
| HomeBaseWaiters.AskedInBetween | eufy_event_gateway/src/stream/homebase-ppcs.ts:310-331 | a waiter whose id was not used up at some moment was created after it and before its reply |
| HomeBaseWaiters.StepKeepsInv | eufy_event_gateway/src/stream/homebase-ppcs.ts:267-376 | every step keeps the armed timers exactly those of the waiters in the slots, each settled at most once |
| HomeBaseWaiters.RejectAllEmpties | eufy_event_gateway/src/stream/homebase-ppcs.ts:355-376 | rejecting the four slots leaves no waiter and no timer |
| HomeBaseWaiters.HomeBaseReplies.SendAcknowledgedCommand | eufy_event_gateway/src/stream/homebase-ppcs.ts:310-320 | one acknowledged command at a time; a second is refused and changes no slot |
| HomeBaseWaiters.HomeBaseReplies.WaitForCameraInfo | eufy_event_gateway/src/stream/homebase-ppcs.ts:322-331 | one camera-info waiter at a time |
| HomeBaseWaiters.HomeBaseReplies.WaitForGatewayInfo | eufy_event_gateway/src/stream/homebase-ppcs.ts:333-342 | one gateway-info waiter at a time |
| HomeBaseWaiters.HomeBaseReplies.WaitForStorage | eufy_event_gateway/src/stream/homebase-ppcs.ts:344-353 | one storage waiter at a time |
| HomeBaseWaiters.HomeBaseReplies.HandleFrame | eufy_event_gateway/src/stream/homebase-ppcs.ts:267-308 | a slot empties if and only if the frame is what its waiter waits for |
| HomeBaseWaiters.HomeBaseReplies.TimerFires | eufy_event_gateway/src/stream/homebase-ppcs.ts:313-316 | an armed timer empties its slot, whose waiter is its own, and settles it, once |
| HomeBaseWaiters.HomeBaseReplies.RejectPending | eufy_event_gateway/src/stream/homebase-ppcs.ts:355-376 | all four waiters are disarmed and rejected, in order |
| HomeBaseWaiters.HomeBaseReplies.Shutdown | eufy_event_gateway/src/stream/homebase-ppcs.ts:204-212 | after close nobody waits, no timer is armed and every waiter was settled exactly once |
| LiveStream.IdleStopIsNeverPremature | eufy_event_gateway/src/stream/live-stream-manager.ts:77-262 | in every run the leases count the captures and recordings in flight; while the grace timer is armed nobody uses the session, and when it may fire nobody has for the whole grace period |
| LiveStream.NeverOrphanedIff | eufy_event_gateway/src/stream/live-stream-manager.ts:77-387 | throughout a run an open session that is owned and unused has its grace timer armed, is stopping or has failed, if and only if every source of the run attached when the session was in use, not owned, closed or had its timer armed |
| LiveStream.NoOrphanedSource | eufy_event_gateway/src/stream/live-stream-manager.ts:77-387 | sources that attach while the session is starting always may, so they orphan nothing |
| LiveStream.AttachWhileStoppingOrphans | eufy_event_gateway/src/stream/live-stream-manager.ts:165-187 | a run that attaches a source while stopping and orphans it |
| LiveStream.AlwaysOwnedIff | eufy_event_gateway/src/stream/live-stream-manager.ts:165-278 | throughout a run starting sessions and attached sources are owned, if and only if every source attached to an owned session and no start was rejected after a source was attached |
| LiveStream.ExpectedRunsAreOwned | eufy_event_gateway/src/stream/live-stream-manager.ts:165-278 | attaching while starting and rejecting before attaching is enough for that |
| LiveStream.AttachedSourceIsReleased | eufy_event_gateway/src/stream/live-stream-manager.ts:165-262 | under both conditions an unused attached source always has its stop under way, or the session failed |
| LiveStream.LateRejectionDisowns | eufy_event_gateway/src/stream/live-stream-manager.ts:264-278 | a run in which an abandoned start rejects late and disowns the source of a newer one |
| LiveStream.RecordingSettlesOnce | eufy_event_gateway/src/stream/live-stream-manager.ts:316-375 | in every run a recording is resolved, rejected or cancelled at most once; a resolved one is the in-order concatenation of the chunks of one gapless stretch of the source, at least one and at most 256 MiB; out of the set, no timer of it is armed |
| LiveStream.SettlesInTime | eufy_event_gateway/src/stream/live-stream-manager.ts:316-350 | a recording resolves only by its duration timer, its duration after its first chunk; its start timer rejects it only after the start timeout and with nothing delivered |
| LiveStream.ResolvedTookItsTime | eufy_event_gateway/src/stream/live-stream-manager.ts:343-350 | in every run a resolved recording was resolved by its duration timer, no earlier than its first delivered chunk plus its duration |
| LiveStream.RecordingTimers | eufy_event_gateway/src/stream/live-stream-manager.ts:316-350 | in every run exactly one timer of a recording in the set is armed: before its first chunk the start timer, due at registration plus timeout, then the duration timer, due at the first chunk plus the duration |
| LiveStream.GraceIsExact | eufy_event_gateway/src/stream/live-stream-manager.ts:224-237 | an armed grace timer is due exactly the grace period after it was armed |
| LiveStream.RecordingIsUpToDate | eufy_event_gateway/src/stream/live-stream-manager.ts:343-375 | a recording in the set holds every chunk since its registration; a settled one never changes again |
| LiveStream.ResolvesToEverythingBetween | eufy_event_gateway/src/stream/live-stream-manager.ts:316-375 | for a run that registers a recording, goes on in any way, settles it and goes on in any way: one settlement, and a resolved one is the concatenation of exactly the chunks delivered between registration and settling |
| LiveStream.StepKeepsAccounts | eufy_event_gateway/src/stream/live-stream-manager.ts:77-262 | every step keeps a lease per operation and the published state and viewer count current |
| LiveStream.StepKeepsNoOrphanIff | eufy_event_gateway/src/stream/live-stream-manager.ts:77-387 | one step keeps an owned unused session on its way to a stop exactly if it is no attach out of turn |
| LiveStream.StepKeepsRecordings | eufy_event_gateway/src/stream/live-stream-manager.ts:173-375 | every step keeps each recording's chunks, size, timers and settlement in agreement |
| LiveStreamSession.CameraSession.AddViewer | eufy_event_gateway/src/stream/live-stream-manager.ts:77-98 | cancels the stop, adds the viewer, starts an idle or failed source; on a closed gateway the response is destroyed |
| LiveStreamSession.CameraSession.RemoveClient | eufy_event_gateway/src/stream/live-stream-manager.ts:217-222 | removes the viewer and schedules the stop if nobody is left |
| LiveStreamSession.CameraSession.StartCapture | eufy_event_gateway/src/stream/live-stream-manager.ts:101-114 | a closed gateway refuses before taking a lease; otherwise a lease is taken and the source started |
| LiveStreamSession.CameraSession.StartRecording | eufy_event_gateway/src/stream/live-stream-manager.ts:133-155 | a bad duration changes nothing; otherwise a lease is taken and the recording registered, from the next chunk on, before the start that may throw |
| LiveStreamSession.CameraSession.CollectRecording | eufy_event_gateway/src/stream/live-stream-manager.ts:316-341 | a recording with nothing yet and its start timer armed |
| LiveStreamSession.CameraSession.FinishOperation | eufy_event_gateway/src/stream/live-stream-manager.ts:116-120 | what is pending is cancelled, the lease given back, the stop scheduled |
| LiveStreamSession.CameraSession.Schedule | eufy_event_gateway/src/stream/live-stream-manager.ts:224-237 | arms the grace timer exactly when open, unused, owned and not armed |
| LiveStreamSession.CameraSession.EnsureStart | eufy_event_gateway/src/stream/live-stream-manager.ts:264-269 | starts and owns the source exactly from idle or error |
| LiveStreamSession.CameraSession.StartFailed | eufy_event_gateway/src/stream/live-stream-manager.ts:270-277 | a rejected start fails and disowns the session |
| LiveStreamSession.CameraSession.AttachSource | eufy_event_gateway/src/stream/live-stream-manager.ts:165-187 | the session streams from the new source, an old one is destroyed; nothing is orphaned exactly if the source may attach |
| LiveStreamSession.CameraSession.OnChunk | eufy_event_gateway/src/stream/live-stream-manager.ts:173-182 | each recording of the set gets the chunk, and those that outgrow the limit are rejected |
| LiveStreamSession.CameraSession.AppendRecordingChunk | eufy_event_gateway/src/stream/live-stream-manager.ts:343-357 | the first chunk swaps the start timer for the duration timer; the limit rejects |
| LiveStreamSession.CameraSession.SettleRecording | eufy_event_gateway/src/stream/live-stream-manager.ts:359-371 | only a recording still in the set is settled, and both its timers disarmed |
| LiveStreamSession.CameraSession.FailAll | eufy_event_gateway/src/stream/live-stream-manager.ts:373-375 | every recording of the set is rejected |
| LiveStreamSession.CameraSession.OnSourceEnded | eufy_event_gateway/src/stream/live-stream-manager.ts:377-387 | an idle session ignores it; any other fails its recordings, drops source, ownership and viewers |
| LiveStreamSession.CameraSession.OnMarkStopped | eufy_event_gateway/src/stream/live-stream-manager.ts:190-199 | fails recordings, drops source, ownership and viewers, ends idle |
| LiveStreamSession.CameraSession.OnStopTimer | eufy_event_gateway/src/stream/live-stream-manager.ts:227-230 | the grace timer stops a session that nobody uses and nobody has used for the grace period |
| LiveStreamSession.CameraSession.OnStopRejected | eufy_event_gateway/src/stream/live-stream-manager.ts:231-234 | a rejected stop is an error |
| LiveStreamSession.CameraSession.StopNowIfUnused | eufy_event_gateway/src/stream/live-stream-manager.ts:239-245 | stops at once exactly when unused and owned |
| LiveStreamSession.CameraSession.OnStopNowResolved | eufy_event_gateway/src/stream/live-stream-manager.ts:246-251 | only a session still stopping becomes idle and disowned |
| LiveStreamSession.CameraSession.OnStartTimer | eufy_event_gateway/src/stream/live-stream-manager.ts:328-330 | a recording without video by its start time is rejected |
| LiveStreamSession.CameraSession.OnDurationTimer | eufy_event_gateway/src/stream/live-stream-manager.ts:347-350 | a recording whose time is up resolves to every chunk delivered since it was registered, at least one |
| LiveStreamSession.CameraSession.Shutdown | eufy_event_gateway/src/stream/live-stream-manager.ts:202-214 | closing disarms the grace timer, drops the source, fails the recordings and asks the provider to stop an owned source, once |
| Snapshots.IndexIsAlwaysCovered | eufy_event_gateway/src/storage/snapshot-store.ts:69-109 | at every point of every run, crashes and failed file operations included, each serial of the index on disk has a whole image, the bytes of one of its own writes, no earlier than the write its entry records |
| Snapshots.RestartRecovers | eufy_event_gateway/src/storage/snapshot-store.ts:41-49 | after a crash anywhere the store starts again with the index on disk |
| Snapshots.ReadsAreFresh | eufy_event_gateway/src/storage/snapshot-store.ts:57-66 | whatever writes interleave, a read returns a whole image no older than the info it returns |
| Snapshots.RevisionsIncrease | eufy_event_gateway/src/storage/snapshot-store.ts:69-92 | successful writes of a serial return ever higher revisions within a process |
| Snapshots.ResolvedIsDurable | eufy_event_gateway/src/storage/snapshot-store.ts:69-97 | a write that resolves has its image, and an index that records it, on disk |
| Snapshots.InfosAreOfTheirWrites | eufy_event_gateway/src/storage/snapshot-store.ts:69-97 | in every run the infos of resolved writes, of all entries in memory and on disk and of all reads carry the time, type and origin their write was called with |
| Snapshots.StepKeepsInv | eufy_event_gateway/src/storage/snapshot-store.ts:41-109 | every step, a failing or crashing one too, keeps the disk consistent and the memory index covered |
| Snapshots.StepKeepsRevisions | eufy_event_gateway/src/storage/snapshot-store.ts:76-92 | every step keeps the next revision above all returned ones |
| Snapshots.ImageLands | eufy_event_gateway/src/storage/snapshot-store.ts:105-109 | renaming an image into place only replaces an older one |
| Snapshots.IndexLands | eufy_event_gateway/src/storage/snapshot-store.ts:94-97 | renaming an index into place publishes only covered records |
| Snapshots.SnapshotStore.LoadIndex | eufy_event_gateway/src/storage/snapshot-store.ts:41-49 | the store starts on whatever a crash left: the index on disk is always readable, and is what it remembers |
| Snapshots.SnapshotStore.ReadIndex | eufy_event_gateway/src/storage/snapshot-store.ts:41-49 | a missing index is a first run, an unreadable one an error that leaves the store stopped |
| Snapshots.SnapshotStore.EnqueueWrite | eufy_event_gateway/src/storage/snapshot-store.ts:76-91 | a write waits behind all earlier ones |
| Snapshots.SnapshotStore.BeginOperation | eufy_event_gateway/src/storage/snapshot-store.ts:76-85 | empty data is refused; otherwise the revision is above every one returned for the serial |
| Snapshots.SnapshotStore.AfterFileOperation | eufy_event_gateway/src/storage/snapshot-store.ts:86-109 | memory and files change one step at a time; a failure settles the write as failed, and a write that resolves has its image and its index entry on disk |
| Snapshots.SnapshotStore.BeginRead | eufy_event_gateway/src/storage/snapshot-store.ts:57-59 | nothing without an entry; otherwise the info is taken before the file is read |
| Snapshots.SnapshotStore.EndRead | eufy_event_gateway/src/storage/snapshot-store.ts:60-61 | the bytes of one of the serial's writes, no earlier than the info returned with them |
| StationOperations.OneSessionAtATime | eufy_event_gateway/src/provider/eufy-provider.ts:435-475 | when an operation has begun, all earlier ones have settled and closed their sessions; operations begin in call order |
| StationOperations.SessionsDoNotOverlap | eufy_event_gateway/src/provider/eufy-provider.ts:448-468 | at most one session is between connect and close |
| StationOperations.EntryIsNewest | eufy_event_gateway/src/provider/eufy-provider.ts:470-474 | the map entry is the newest operation and is gone only when all have settled |
| StationOperations.NextCanStart | eufy_event_gateway/src/provider/eufy-provider.ts:440-441 | no outcome of an operation blocks the next one |
| StationOperations.OperationSteps | eufy_event_gateway/src/provider/eufy-provider.ts:421-468 | which event takes an operation from where to where, and with what result: every step of a write and of a refresh |
| StationOperations.WritesWaitForMedia | eufy_event_gateway/src/provider/eufy-provider.ts:446-455 | a write opens its session only after its media was stopped |
| StationOperations.RefreshesStartIdle | eufy_event_gateway/src/provider/eufy-provider.ts:446-448 | a refresh opens its session only if it started without active media |
| StationOperations.RefreshesAreRead | eufy_event_gateway/src/provider/eufy-provider.ts:446-460 | a refresh that resolved was started during media and returned the station as it was, or received in its own open session a camera-info frame and then a storage answer and returned both merged |
| StationOperations.AlarmFollowsPushes | eufy_event_gateway/src/provider/eufy-provider.ts:368-475 | under every interleaving the alarm flag is that of the latest siren push |
| StationOperations.ResolvedWritesAreConfirmed | eufy_event_gateway/src/provider/eufy-provider.ts:421-433 | a write that resolved returned the requested value, from a camera-info frame that came after its acknowledgement |
| ConfirmedWrites.ResolvedWriteWasReadBack | eufy_event_gateway/src/provider/eufy-provider.ts:421-475 | under every interleaving of operations, pushes, frames and timeouts, a resolved write returned the requested value, and its session received, in this order, an acknowledgement of its command with four zero bytes and, after a new wait, a camera-info frame carrying the value |
| ConfirmedWrites.ResolvedWasConfirmed | eufy_event_gateway/src/provider/eufy-provider.ts:427-432 | a resolved write was acknowledged and later given a frame with the requested value, which its result merges |
| ConfirmedWrites.ReadingWasAcked | eufy_event_gateway/src/provider/eufy-provider.ts:428-429 | a write reads back only after its acknowledgement |
| StationOperations.OnlyPushesWhileOpen | eufy_event_gateway/src/provider/eufy-provider.ts:368-468 | under every interleaving, while an operation's session is open only pushes change the station |
| StationOperations.SettlingAfterPushes | eufy_event_gateway/src/provider/eufy-provider.ts:454-468 | from the opening of a session to its settling the station changes by the pushes in between and then by the settling alone: `connected` cleared if it fails, one observation merged into what the pushes left and returned if not |
| StationOperations.SessionEventsOnStation | eufy_event_gateway/src/provider/eufy-provider.ts:454-466 | a success stores exactly what it returns, a failure clears `connected` and nothing else, and before that nothing changes |
| StationOperations.OtherEventsOnStation | eufy_event_gateway/src/provider/eufy-provider.ts:368-447 | nothing else touches the station but pushes, and these only their own fields |
| StationOperations.MergeStores | eufy_event_gateway/src/provider/eufy-provider.ts:582-594 | the merge takes every observed field, keeps firmware and storage that were not read, and never touches the alarm flag |
| StationOperations.ApplyKeepsSerial | eufy_event_gateway/src/provider/eufy-provider.ts:435-475 | every step keeps the chain of operations serial |
| StationOperations.StationProvider.QueueOperation | eufy_event_gateway/src/provider/eufy-provider.ts:440-470 | a call becomes the entry and can start at once exactly if all earlier ones have settled |
| StationOperations.StationProvider.StartOperation | eufy_event_gateway/src/provider/eufy-provider.ts:441-453 | operations start in call order, after all earlier ones have settled, and no other session is open; identity, media and session cases as in the source |
| StationOperations.StationProvider.OnMediaStopped | eufy_event_gateway/src/provider/eufy-provider.ts:446-453 | media that cannot be stopped fails the operation before its session |
| StationOperations.StationProvider.OnConnected | eufy_event_gateway/src/provider/eufy-provider.ts:454-456 | a failed connect clears `connected` and nothing else |
| StationOperations.StationProvider.OnAcknowledged | eufy_event_gateway/src/provider/eufy-provider.ts:427-429 | a refused write clears `connected` and nothing else; an accepted one changes no state yet |
| StationOperations.StationProvider.OnCameraInfo | eufy_event_gateway/src/provider/eufy-provider.ts:429-431 | a settling success stores what it returns, for a write the requested value from a frame after the acknowledgement; a failure clears `connected` and nothing else |
| StationOperations.StationProvider.OnStorageInfo | eufy_event_gateway/src/provider/eufy-provider.ts:456-460 | a refresh stores and returns the station merged with the storage it read |
| StationOperations.StationProvider.FailSession | eufy_event_gateway/src/provider/eufy-provider.ts:461-468 | `connected` is cleared on the station as it is then, and the session closed |
| StationOperations.StationProvider.FinishSession | eufy_event_gateway/src/provider/eufy-provider.ts:456-468 | the observation is merged into the station as it is then, and the session closed |
| StationOperations.StationProvider.OnSettled | eufy_event_gateway/src/provider/eufy-provider.ts:471-473 | the entry is forgotten unless a newer operation took its place, and only when all have settled |
| StationOperations.StationProvider.OnGuardPush | eufy_event_gateway/src/provider/eufy-provider.ts:371-378 | only valid modes replace the station's, and the alarm flag stays |
| StationOperations.StationProvider.OnSirenPush | eufy_event_gateway/src/provider/eufy-provider.ts:379-383 | the alarm is active unless the type is one of the five silent ones |
| Gateway.FlagsFollowReports | eufy_event_gateway/src/domain/gateway-state.ts:124-180 | in every run, whenever its clear timer is not overdue, a camera's motion or person flag is on exactly when its latest such report was true and the hold is not over, and the armed timer is the newest true report's; a doorbell's too as long as none of its own clears is refused; other cameras and kinds do not matter |
| Gateway.FlagsFollowSteps | eufy_event_gateway/src/domain/gateway-state.ts:124-180 | the same with the latest report and its time taken from the calls alone |
| Gateway.CamerasShowTheLatest | eufy_event_gateway/src/domain/gateway-state.ts:70-202 | in every run the cameras are those registered, and each shows its latest identity, image info and stream report, and its newest detection, with a person outranking motion for ten seconds |
| Gateway.ReportsAreLatest | eufy_event_gateway/src/domain/gateway-state.ts:124-180 | the reports a flag is judged by are the latest ones a camera took, and when |
| Gateway.AgreesIffClearsWork | eufy_event_gateway/src/domain/gateway-state.ts:124-180 | flag, timer and reports of a camera and kind agree after every step of a run if and only if none of their clears was refused |
| Gateway.RefusedClearSticks | eufy_event_gateway/src/domain/gateway-state.ts:163-180 | after a run without refused clears, the next clear breaks the timestamp rule exactly if it is refused |
| Gateway.StepKeepsKeyIff | eufy_event_gateway/src/domain/gateway-state.ts:163-180 | one step keeps flag, timer and reports of a camera and kind in agreement exactly if it is no refused clear of them |
| Gateway.DoorbellSticks | eufy_event_gateway/src/domain/gateway-state.ts:163-180 | a doorbell pressed, re-registered without one and then cleared stays pressed for good |
| Gateway.ApplyPublishes | eufy_event_gateway/src/domain/gateway-state.ts:70-330 | every call that changes a camera emits it whole, after the change |
| Gateway.EventsCarryTheState | eufy_event_gateway/src/domain/gateway-state.ts:70-202 | replaying the events since any moment onto the cameras of that moment gives the cameras of now |
| Gateway.StartTimesFollowStreams | eufy_event_gateway/src/domain/gateway-state.ts:191-202 | in every run a streaming camera has a start time, an idle or failed one has none, and it stays while the camera streams |
| Gateway.ReplayConcat | custom_components/eufy_event_gateway/coordinator.py:141-148 | replaying events in two parts is replaying them at once |
| Gateway.MergedSchedules | eufy_event_gateway/src/domain/gateway-state.ts:301-318 | arming or clearing in one of the three timer maps does so for its kind and serial alone |
| Gateway.GatewayState.RegisterCamera | eufy_event_gateway/src/domain/gateway-state.ts:70-89 | a known camera keeps everything but its identity, a new one starts clean; that camera is stored and emitted, and nothing else changes |
| Gateway.GatewayState.RestoreSnapshot | eufy_event_gateway/src/domain/gateway-state.ts:117-121 | an unknown camera throws and changes nothing; a known one is stored and emitted with the info, and nothing else changes |
| Gateway.GatewayState.ScheduleDetectionClear | eufy_event_gateway/src/domain/gateway-state.ts:301-318 | the old timer is cleared, and a new one armed for a true report only |
| Gateway.GatewayState.RecordDetection | eufy_event_gateway/src/domain/gateway-state.ts:124-180 | flag, timer, latest detection and events of one report; recent person detections outrank motion; doorbells without support ignore it |
| Gateway.GatewayState.RecordReport | eufy_event_gateway/src/domain/gateway-state.ts:124-180 | an unknown camera throws and a doorbell without support is ignored; otherwise flag, timer, latest detection and events are exactly as the report says, and nothing else changes |
| Gateway.GatewayState.ClearTimerFires | eufy_event_gateway/src/domain/gateway-state.ts:313-316 | a due timer forgets itself and reports false, with exactly that effect; unless refused, the flag is off |
| Gateway.GatewayState.PublishSnapshot | eufy_event_gateway/src/domain/gateway-state.ts:183-188 | a known camera is stored with the info; the notice and then the camera are emitted; nothing else changes |
| Gateway.GatewayState.PublishStream | eufy_event_gateway/src/domain/gateway-state.ts:191-202 | state, viewers and error are stored; the start time is set by the first streaming state and cleared by idle and error; the camera is emitted |
| Gateway.GatewayState.PublishConnection | eufy_event_gateway/src/domain/gateway-state.ts:205-209 | the connection is stored and published |
| Gateway.GatewayState.PublishStation | eufy_event_gateway/src/domain/gateway-state.ts:92-97 | the station is stored and published |
| EventStream.Events | custom_components/eufy_event_gateway/client.py:149-162 | the loop over the lines yields what the line-by-line specification does |
| EventStream.ClientRecoversEvents | custom_components/eufy_event_gateway/client.py:149-162 | from the text written for any messages and heartbeats the client takes exactly the messages' objects, in order |
| EventStream.PartYields | eufy_event_gateway/src/server.ts:322-325 | one message yields its object, one heartbeat nothing, and neither leaves anything half read |
| EventStream.CutPartYieldsNothing | custom_components/eufy_event_gateway/client.py:150-162 | a message cut off anywhere yields nothing |
| EventStream.BrokenConnectionYieldsWholeParts | custom_components/eufy_event_gateway/client.py:149-162 | a connection broken after any character has yielded exactly the messages that arrived whole |
| EventStream.DataIsKept | custom_components/eufy_event_gateway/client.py:151-162 | a data line gives back exactly the JSON text |
| EventStream.HeartbeatIsSkipped | eufy_event_gateway/src/server.ts:325 | a heartbeat line changes nothing |
| EventStream.FeedLine | custom_components/eufy_event_gateway/client.py:150-151 | a line ended by a newline is taken by itself, whatever follows |
| EventStream.LinesMean | custom_components/eufy_event_gateway/client.py:150 | the lines are the text cut after each newline and nowhere else |
| EventStream.StripsMean | custom_components/eufy_event_gateway/client.py:151 | exactly the line ends behind a line are taken off |
| EventStream.LStripMeans | custom_components/eufy_event_gateway/client.py:162 | exactly the white space before a text is taken off |
| EventStream.AsciiSpaces | custom_components/eufy_event_gateway/client.py:162 | which ASCII characters are white space |
| EventStream.DataLineIsRead | custom_components/eufy_event_gateway/client.py:161-162 | a data line adds its text to the message |
| EventStream.OtherLinesAreIgnored | custom_components/eufy_event_gateway/client.py:152-162 | any other line but a blank one is ignored |
| EventStream.SeveralDataLines | custom_components/eufy_event_gateway/client.py:152-160 | a message of several data lines is parsed as these joined by newlines, and what is no object is dropped |
| EventStream.JoinMeans | custom_components/eufy_event_gateway/client.py:155 | joined lines have one newline between each two |
| Replica.ReplicaAgrees | custom_components/eufy_event_gateway/coordinator.py:112-151 | for every run before a connection and every run after it, with heartbeats anywhere, a coordinator with any data that reads the connection's text ends with exactly the gateway's cameras |
| Replica.BrokenReplicaIsAPastState | custom_components/eufy_event_gateway/coordinator.py:94-148 | a connection broken anywhere leaves the coordinator untouched or with the cameras as some number of the events had made them |
| Replica.ResponseReplicates | eufy_event_gateway/src/server.ts:316-330 | what a response has written makes any data agree with the cameras it started with, changed by the events it has seen |
| Replica.ConnectionReplays | custom_components/eufy_event_gateway/coordinator.py:112-151 | the first message and any events, folded into any data, give the replayed cameras and stations |
| Replica.EventReplays | custom_components/eufy_event_gateway/coordinator.py:141-151 | one event does to the coordinator's cameras and stations what it does to the gateway's, and events of other types do nothing |
| Replica.ReadyReplaces | custom_components/eufy_event_gateway/coordinator.py:114-125 | the full list replaces the cameras, in whatever order it comes, and leaves the stations |
| Replica.ListedBySerial | custom_components/eufy_event_gateway/coordinator.py:116-120 | the list's cameras are held under their own serials, and nothing else is |
| Replica.BySerialMeans | custom_components/eufy_event_gateway/coordinator.py:116-120 | of the values with a serial the last one is held under it, and nothing else is held |
| Replica.ObjectsOnTheWire | eufy_event_gateway/src/domain/gateway-state.ts:70-209 | what each event says, key by key |
| Replica.ReadyOnTheWire | eufy_event_gateway/src/server.ts:322 | the first message lists exactly the cameras, in their order, under one key |
| Replica.EventResponse.constructor | eufy_event_gateway/src/server.ts:316-325 | a response starts with a listener, a heartbeat and the full list, in these characters |
| Replica.EventResponse.OnEvent | eufy_event_gateway/src/server.ts:323 | each event is written as one message in these characters, in order |
| Replica.EventResponse.OnHeartbeat | eufy_event_gateway/src/server.ts:325 | a heartbeat is written between messages |
| Replica.EventResponse.OnClose | eufy_event_gateway/src/server.ts:326-329 | closing removes listener and heartbeat and writes nothing |
| Replica.Coordinator.OnObject | custom_components/eufy_event_gateway/coordinator.py:112-151 | the four keys are looked at in order, malformed values are ignored, and each branch replaces only its own half of the data |
| Replica.Coordinator.AsyncSetStation | custom_components/eufy_event_gateway/coordinator.py:68-78 | a station without a string serial changes nothing; any other replaces that station and leaves the cameras |
| Replica.Coordinator.Listen | custom_components/eufy_event_gateway/coordinator.py:99-101 | the objects of a connection are applied in order |

## Left out

- PpcsSessions.CommandRoundTrip: assumes that nothing is held for type 0 when the command arrives, as after any whole frame, or that its number jumps; bytes held otherwise are put before the command by the code.
- PpcsSessions.HomeBasePpcsSession.Handle: frames are delivered to a log; what a frame then settles is in `HomeBaseWaiters`. A DID with fewer than twelve bytes or an own DID that cannot be encoded throws, as the buffer calls do.
- PpcsSessions.FirstPartyPpcsSession.HandleDataMessage: only the data branch of its handler; lookups, CAM_ID, key derivation, video decryption and statistics of that session are left out.
- IdentityCodecs.EncodedFields: models numbers written in decimal digits only, not the other spellings the source's number conversion accepts, and ASCII text only.
- IdentityCodecs.DecodeCloudAddresses: the byte stage; splitting the decoded text into hosts is left out, as a single expression.
- McsWire.VarintMeans: the reader belongs to a library that is not part of this model; it is written after the "Base 128 Varints" section of the Protocol Buffers Encoding guide, with at most ten bytes, the low 32 bits as a signed number and a tenth continuation byte as an error.
- McsReceiver.McsParser.HandleData: message bodies are opaque bytes, so an error while decoding a body is not modelled; what the object does after it has thrown is not either.
- LiveStream.IdleStopIsNeverPremature: one session of the manager; sessions share nothing but `close`, and the map from serials to sessions is left out.
- LiveStream.RecordingSettlesOnce: recording ids are used once; packaging the bytes as MP4 is left out.
- HomeBaseWaiters.HomeBaseReplies.SendAcknowledgedCommand: writing the command is in `PpcsSessions`; without a peer the source rejects at once and leaves the slot to its timer, which is not modelled.
- HomeBaseWaiters.HomeBaseReplies.Shutdown: the end message, the heartbeat interval and the socket are left out.
- LiveStreamSession.CameraSession.AttachSource: FFmpeg's process is left out.
- LiveStreamSession.CameraSession.Shutdown: ending the viewers' responses and the wait for the provider are left out.
- LiveStreamSession.CameraSession.StartCapture: the wait for a fresh frame is represented by the moment the operation finishes.
- LiveStreamSession.CameraSession.OnChunk: the recordings' share; viewers' back-pressure and FFmpeg's input are left out.
- Snapshots.IndexIsAlwaysCovered: hashed file names are taken to be distinct for distinct serials, and a complete file is taken to be readable; a read that finds the file missing, or an index that cannot be read, does not occur in the model, as `Snapshots.ReadsAreFresh` and `Snapshots.SnapshotStore.LoadIndex` show.
- StationOperations.OneSessionAtATime: one station; the map from serials to operations is represented by that station's entry, and the provider's `close` is left out.
- ConfirmedWrites.ResolvedWriteWasReadBack: the slots of one session; that the operation goes on when what it awaits has resolved is its premise, as it is JavaScript's, and turning a payload into an observation is a parameter.
- Gateway.FlagsFollowReports: while a due timer has not fired yet its flag is still on, so the exact rule is stated for timers that are not overdue.
- Gateway.GatewayState.RecordReport: normalising a person's name is done before the report; identifiers of detections are parameters.
- EventStream.ClientRecoversEvents: JSON printing and parsing are a pair of functions of which is used that parsing undoes printing and that an object prints as one line starting with a brace; UTF-8 decoding is left out.
- Replica.ReplicaAgrees: cameras, without a poll in flight, because a poll's answer can overwrite newer events. Stations are carried by their events only, since the first message does not list them.
- Calls on a closed HomeBase session, a repeated startup pass and the process's own shutdown order.
- Cryptography, sockets, TLS, HTTP routing, FFmpeg processes, FCM registration and the cloud login: replaced by steps, byte strings or pairs of functions.
- Home Assistant entities, configuration flow, authentication and tokens.
- Capability catalogues, name extraction, diagnostics and log formatting.
