# UniDrop, verified model

A Dafny 4.11 model of the protocol core of UniDrop: two clients (Rust) that move files to each other through a relay
server (Go). Every operation is a function on a value state, every object that the program updates in place is also a
class whose methods are proved equal to those functions, and the theorems are about all runs of the resulting step
systems. `dafny verify dfyconfig.toml` checks everything.

| file | what it models |
|---|---|
| `Common`, `BinaryHeader`, `ChunkPlan`, `Framing` | fixed-width integers, the 64-byte frame header in both languages, how files are cut into chunks, how frames are built, checked and relayed |
| `Offers`, `FolderExpansion`, `FolderContents`, `E2ee`, `Limits` | expanding a selection, preparing an offer, nonces and sealed metadata, the client's precheck and the server's limits |
| `SlidingWindow`, `SenderLoop`, `SenderTimeouts` | the sender's window and main loop as classes and as functions, and its timeout over runs |
| `Receiver`, `Replies` | the receiver's loop in both forms, and what each kind of message does and is answered with |
| `Transfer`, `TransferProgress`, `TransferTraps` | sender, two lossy channels and receiver as one step system, with the end-to-end theorems, what can still finish, and the losses after which nothing can |
| `Relay`, `RelayGrants` | the relay manager: authorizations, pipes, teardown and sweep under a clock, and who is let in |
| `PooledRelay`, `RelayConservation`, `RelayBuffers`, `RelayedTransfer` | recycled buffers between pool, pumps and channels: as a step system over any number of sessions, as shared heap objects, and with a transfer running through them |
| `Handshake`, `HandshakeEntries`, `SignalRouting` | OFFER, ANSWER and token from one client over the server to the other, and the routers in place |
| `CacheIndex`, `CacheSweep`, `HistoryPrune`, `Retention`, `Janitors` | the three-phase cache sweep and history prune with other tasks running in the unlocked phase, one at a time and overlapping |

## Main results

1. `Transfer.CompleteMeansEqualFiles`, `TruncateDestroysNothing`, `ReceivedBytesConserved`: whatever the channels drop,
   repeat, reorder or damage, a complete sender window means that every chunk is stored, and each file equals its source
   if and only if no read has failed while the receiver verifies, which it does after its last ACK. Nothing stored is
   lost before. `RelayedTransfer.CompleteThroughRelay` carries this through the relay's recycled buffers.
   `TransferNeverStalls` and `TransferWorkBounded` are the progress side: no deadlock, at most six transmissions of a
   chunk. `TransferProgress.CanFinishExactly` says exactly from which states a transfer can still be completed and
   verified once frames are lost. `NonceNeverReused` is the nonce rule of section 8 of NIST SP 800-38D for one session
   key.
2. `SenderTimeouts.BackoffOverRuns`: the timeout over runs; `Replies.ThreeTagFailures` and its neighbours: the answer to
   every kind of message.
3. `Relay.QuotaHolds` with `PipeRefusalExactly` and `ReauthorizeNotRefused`; `RunsArePaired`, `NonInterference` and
   `LiveEntryStable`; `RelayGrants.AdmittedExactly`, who passes the check after any run.
4. `PooledRelay.BuffersNeverShared`, `ForwardIsFifo`, `BackwardIsFifo`, `RelayConservation.LostAreOverruns`, and
   `RelayBuffers.Direction` on real references.
5. `Handshake.StartsAtMostOnce`, `SidesAgree`, `DialsAreAccepted` with its converse
   `HandshakeEntries.OnlyParticipantsAreAccepted`, `EndsOnlyBy`, `HandshakeCanComplete`, `HandshakeEntries.EntriesHeld`.
6. `CacheSweep.SelectVictims`, `SweepOrphansExactly`, `Retention.QuotaVictimsNeeded`; `HistoryPrune.PruneKeepsLists`,
   `PruneOrphansExactly`, `PruneHistoryKeepsHeads`, `Retention.CandidatesExactly`; `Janitors.NoOrphan` for any number of
   them at once.
7. `FolderExpansion.ExpandSelection` with `FolderContents.FolderYieldsExactly`, `E2ee.SealThenOpen` and `WireCopyHides`,
   `BinaryHeader.DecodeEncode`, `Limits.CheckIsExact`, `OneItemRule` and `PrecheckAgrees`.

## Where a promise does not hold, and exactly when it does

- Chunk counts are cast to u32: the chunks rebuild a file if and only if the count fits (`ChunkPlan.PiecesRebuildFile`).
- A complete sender window does not mean that the receiver has verified anything: the last ACK leaves before the hashes
  are computed. Exactly a verifying read that fails then removes the directory (`Transfer.CompleteMeansEqualFiles`).
- A transfer can get stuck with neither end having given up. It can still finish if and only if each in-flight chunk has
  its ACK on the way or, while the receiver listens, its frame on the way or fewer than four retransmissions behind it
  (`TransferProgress.CanFinishExactly`). A lost ACK after the receiver has stopped listening breaks that, since it never
  answers again (`TransferTraps.LostAckTraps`); so does the loss of a fourth retransmission (`LostRetryTraps`).
- int64 sums wrap: the server passes an offer exactly when it is within the limits or the wrap hides its excess
  (`Limits.CheckIsExact`, example `WrapAdmitsExcess`). The server passes a file offer exactly when the precheck passed
  and nothing turned negative, so the two disagree only about offers that the precheck let through with a negative size
  or total, and agree whenever it refuses (`PrecheckAgrees`, example `PrecheckAdmitsNegativeTotal`). Rust sums are
  modelled as in a release build.
- Opening a sealed offer restores it if and only if duplicated item indices lose nothing (`E2ee.SealThenOpen`).
- An ACK for a chunk that was not sent yet can stall the sender (`SenderLoop.EarlyAckStalls`): an idle window can go on
  if and only if the next chunk was not acknowledged early (`SlidingWindows.IdleCanSendIff`), and a stalled sender never
  transmits again (`SenderLoop.StalledForGood`). An honest receiver never does it (`Transfer.TransferNeverStalls`).
- The per-account pipe refusal can be reached exactly when the pipe limit is between 1 and the global cap of 200 and the
  transfer limit is off or larger (`Relay.PipeRefusalExactly`); the server's start-up passes one number for both.
- A sweep leaves a file on disk without a row if and only if it was last received after its predecessor had been removed
  and its session has no injection since that is inside the window (`CacheSweep.SweepOrphansExactly`); for a prune the
  condition is on the session (`HistoryPrune.PruneOrphansExactly`). Files that are not received meanwhile are never
  orphaned, also when several sweeps and prunes overlap (`Janitors.NoOrphan`).
- A prune deletes a row that heads its list only if that candidate session was recorded again while its files were
  removed (`HistoryPrune.PruneHistoryKeepsHeads`), and then it does (`RecordedAgainIsDeleted`).
- Of the frames that pass the reverse pump's checks exactly those of 64 bytes fit the buffer they are copied into
  (`Framing.ReverseChecksAdmitLonger`, `PooledRelay.AdmittedFits`); a longer one ends the pump and loses the buffer
  (`PooledRelay.OverrunLosesBuffer`). The client's own frames always fit (`Framing.ReverseFramesFit`).

Where comments and code differ the model follows the code: comments speak of four chunks in flight and the window is
created with size 2; the comment on the tag-failure breaker calls both counters necessary, and the session counter alone
decides (`Receiving.AbortIsThirdFailure`); a sweep starts evicting as soon as more than the low watermark remains, not
only above the maximum. A SUM that overflows in SQL is read as 0, so the quota statements assume a total below 2^63.

## Assumptions

- AES-GCM, SHA-256, CRC32, JSON and base64 are function-valued parameters. `E2ee.Sound` says that opening undoes
  sealing and adds 16 bytes; `E2ee.Faithful` that encodings invert; damage to a frame is assumed to be seen by the
  header, checksum or tag check of the receiving end.
- Source files do not change during a transfer; the receiver starts with an empty session directory;
  target paths are distinct and unchanged by path sanitizing; the offer describes the sources (`Offers.PreparedDescribes`
  says when a prepared one does).
- Handlers of one role follow one another on a pipe, one at a time. Clocks, random tokens, socket and disk outcomes and
  the user's decisions are parameters of the steps. A session id is dispatched once.
- The history variables `origin`, `place`, `granted` and `ended` of the handshake world, `seals`, `times`, `newAcks` and
  `retryIncrements` of a transfer, and `accepted` and `log` of a lane decide nothing; they only record what happened.
- Durations and byte counts are unbounded unless a width is written out; the round-trip estimator is in real arithmetic,
  which its whole-millisecond inputs and dyadic weights make exact in double precision for all realistic durations.

## Model

| member | source | states |
|---|---|---|
| Transfer.CompleteMeansEqualFiles | crates/unidrop-core/src/core/transfer_engine.rs:1064-1150 | After any run over channels that drop, duplicate, reorder or detectably corrupt data and reply frames: a complete sender window means every chunk is stored and the receiver is verifying or done; each file equals its source if and only if no verifying read has failed; the directory is removed if and only if one has; and the receiver is done exactly when every file was read back |
| Transfer.PhaseFollowsRun | crates/unidrop-core/src/core/transfer_engine.rs:1117-1146 | In every run the receiver's phase is the one its verifications so far lead to; it can fail after the last chunk only by a verifying read that fails, never by a wrong hash |
| Transfer.ReceivedBytesConserved | crates/unidrop-core/src/core/transfer_engine.rs:1084-1105 | In every reachable state the receiver's byte counter is the size of the distinct chunks it holds, whatever was duplicated; once all items are done it equals the offer's total |
| Transfer.TruncateDestroysNothing | crates/unidrop-core/src/core/transfer_engine.rs:1418-1435 | Until the receiver fails, a target file exists exactly when a chunk of it is stored, and every byte of every stored chunk still reads as in the source |
| Transfer.TransferNeverStalls | crates/unidrop-core/src/core/transfer_engine.rs:582-644 | Only sent chunks are ever acknowledged, and with nothing in flight and work left the sender may send its next chunk |
| Transfer.TransferWorkBounded | crates/unidrop-core/src/core/transfer_engine.rs:601-746 | Each chunk is transmitted at most 6 times, first sends plus new ACKs plus retry increments are at most 7 per chunk, and the timeout stays within its bounds |
| Transfer.NonceNeverReused | crates/unidrop-core/src/core/transfer_engine.rs:1373-1402 | Over metadata, first sends and all retransmissions of a session, two seals under one nonce seal the same plaintext |
| Transfer.StepKeepsInv | crates/unidrop-core/src/core/transfer_engine.rs:604-746 | Every step of sender, network and receiver, the ACK and each file's verification being separate steps, keeps the whole-system invariant: honest frames, ACKs only for stored chunks, right file contents, counters, phases, seals |
| TransferProgress.CanFinishExactly | crates/unidrop-core/src/core/transfer_engine.rs:582-748 | After any run, with any losses, a transfer can still finish if and only if neither end has given up and each in-flight chunk has its ACK on the way or, while the receiver still listens, its frame on the way or fewer than four retransmissions behind it |
| TransferProgress.TimeoutsSuffice | crates/unidrop-core/src/core/transfer_engine.rs:722-746 | Whatever was lost, timeouts alone, without a damaged frame, finish the transfer as long as each in-flight chunk has its ACK on the way or, while the receiver listens, fewer than four retransmissions behind it |
| TransferProgress.HopelessStays | crates/unidrop-core/src/core/transfer_engine.rs:599-746 | A transfer that cannot finish never becomes one that can, whatever step comes next |
| TransferTraps.LostAckTraps | crates/unidrop-core/src/core/transfer_engine.rs:1071-1150 | For every one-chunk transfer, a run after which neither end has given up and the transfer cannot finish: the chunk is stored, the receiver stops listening, its ACK is lost |
| TransferTraps.LostRetryTraps | crates/unidrop-core/src/core/transfer_engine.rs:599-605 | Another, with the receiver listening: four retransmissions, and the frame of the last is lost |
| RelayedTransfer.ProjectsToTransfer | server/internal/controller/data_ws.go:94-261 | Every run through sockets, lanes and recycled buffers of the relay, with other sessions on the same pools and handlers that come and go, is for sender and receiver a run of the abstract transfer |
| RelayedTransfer.CompleteThroughRelay | crates/unidrop-core/src/core/transfer_engine.rs:1064-1150 | Through the relay a complete sender window means the same: all chunks stored, files equal exactly while no verifying read has failed |
| RelayedTransfer.HonestFramesPass | server/internal/controller/data_ws.go:152-174 | Whatever of this session waits for a reading pump passes its checks and fits its buffer |
| TransferTraps.OneFileCanFinish | crates/unidrop-core/src/core/transfer_engine.rs:582-748 | The setting is not empty: any countable file, sealed or not, can be transferred and verified from the first step to the last |
| SlidingWindows.WindowStructure | crates/unidrop-core/src/core/sliding_window.rs:49-84 | In every state that tracks the sent chunks (in flight is exactly sent and un-acknowledged) the base is the least un-acknowledged chunk and every in-flight chunk lies in the window |
| SlidingWindows.SentTracks | crates/unidrop-core/src/core/sliding_window.rs:57-67 | Sending the next chunk the window admits keeps the window structure |
| SlidingWindows.AckedTracks | crates/unidrop-core/src/core/sliding_window.rs:69-84 | An ACK of any index keeps the window structure, also a duplicate or one for an unsent chunk |
| SlidingWindows.TimedOutTracks | crates/unidrop-core/src/core/sliding_window.rs:99-118 | A timeout scan keeps the structure and the timeout bounds after the backoff |
| SlidingWindows.IdleCanSendIff | crates/unidrop-core/src/core/sliding_window.rs:49-55 | With nothing in flight and work left, the next chunk is admitted exactly when it was not acknowledged before it was sent |
| SlidingWindows.NoDeadlock | crates/unidrop-core/src/core/sliding_window.rs:49-55 | If ACKs only name sent chunks an idle incomplete window always admits the next chunk |
| SlidingWindows.EstimatorIsJacobson | crates/unidrop-core/src/core/sliding_window.rs:120-135 | The floating-point estimator is the integer estimator of RFC 6298 section 2.3 on milliseconds, with the code's own clamp to 3 s and 60 s |
| SlidingWindows.FirstSample | crates/unidrop-core/src/core/sliding_window.rs:30-42 | The first sample starts from 4 s with a variation of 1.5 s |
| SlidingWindows.ExpiryBacksOff | crates/unidrop-core/src/core/sliding_window.rs:99-118 | A scan that transmits something again makes the timeout longer unless it is 60 s, by half rounded down below that cap; any other scan leaves the estimate alone |
| SlidingWindows.FirstTimeout | crates/unidrop-core/src/core/sliding_window.rs:30-42 | A chunk of a fresh window is transmitted again exactly if more than ten seconds have passed |
| SlidingWindows.ClockRestarts | crates/unidrop-core/src/core/sliding_window.rs:86-118 | A transmission, a NACK and a timeout each restart the chunk's clock, and a scan changes no other chunk |
| SenderTimeouts.BackoffOverRuns | crates/unidrop-core/src/core/sliding_window.rs:112-114 | Over any run without samples in which k ticks transmit something again the timeout is the first one lengthened k times: at most (3/2)^k times it, and not below that by more than the rounding unless it is 60 s |
| SenderTimeouts.TwoInFlight | crates/unidrop-core/src/core/sliding_window.rs:49-67 | In every run at most two chunks await an answer, the first un-acknowledged one and the next |
| SenderTimeouts.NackAsksAgain | crates/unidrop-core/src/core/sliding_window.rs:86-97 | In every run a NACK transmits again exactly the chunk it names, and that exactly if it is not acknowledged and went out at most five times |
| SenderLoop.KarnsRule | crates/unidrop-core/src/core/sliding_window.rs:69-84 | In every run the ACK of a chunk in flight updates the estimate exactly if the chunk went out once, and no other event changes it (RFC 6298 section 3) |
| SlidingWindows.SlidingWindow.OnAck | crates/unidrop-core/src/core/sliding_window.rs:69-84 | In place, one ACK gives the state of the window function: sample, removal, base advance |
| SlidingWindows.SlidingWindow.OnNack | crates/unidrop-core/src/core/sliding_window.rs:86-97 | A NACK bumps the in-flight chunk's retries and asks for it again, or does nothing |
| SlidingWindows.SlidingWindow.CheckTimeouts | crates/unidrop-core/src/core/sliding_window.rs:99-118 | In whatever order the map is visited, exactly the late chunks within the retry limit are returned, once each, and the new state is the window function's |
| SlidingWindows.SlidingWindow.OnChunkSent | crates/unidrop-core/src/core/sliding_window.rs:57-67 | In place equals the window function |
| SenderLoop.RunKeepsInv | crates/unidrop-core/src/core/transfer_engine.rs:582-746 | Every feasible sequence of sends, ACKs, NACKs and ticks leads to a state that tracks the sent chunks, with the transmission counts tied to the retry counts |
| SenderLoop.WorkBound | crates/unidrop-core/src/core/sliding_window.rs:44-118 | Over every feasible event sequence: at most 1 + MAX_RETRIES transmissions per chunk, at most 7 productive events per chunk, timeout in bounds |
| SenderLoop.ProductiveEventsAreCounted | crates/unidrop-core/src/core/transfer_engine.rs:604-746 | The work counter never falls and rises on every event that transmits or acknowledges something new |
| SenderLoop.FillWindow | crates/unidrop-core/src/core/transfer_engine.rs:607-645 | Sends until the window admits no more or an attempt fails, staying on a run of the step system; a chunk whose attempt failed stays unsent |
| SenderLoop.HandleInput | crates/unidrop-core/src/core/transfer_engine.rs:647-746 | One ACK, NACK or tick performs the matching step, and the wire gets the retransmitted chunks whose attempts succeed |
| SenderLoop.DriveSender | crates/unidrop-core/src/core/transfer_engine.rs:599-748 | The loop over the window object, with attempts to read, frame and write a chunk that may fail, stays on a run of the step system for every input sequence, and never puts a chunk on the wire more than 6 times |
| SenderLoop.Retransmit | crates/unidrop-core/src/core/transfer_engine.rs:679-746 | Retransmissions go out in order, each attempt that fails being passed over |
| SenderLoop.EarlyAckStalls | crates/unidrop-core/src/core/sliding_window.rs:69-84 | A concrete run in which an ACK for an unsent chunk stalls the sender |
| SenderLoop.StalledForGood | crates/unidrop-core/src/core/transfer_engine.rs:599-660 | A stalled sender transmits nothing in any continuation, and completes exactly if the peer acknowledges every remaining chunk unsent |
| Receiving.WriteKeepsFileOk | crates/unidrop-core/src/core/transfer_engine.rs:1418-1435 | Writing a chunk, in any order and with the code's truncate rule, leaves a file that holds exactly the chunks written so far |
| Receiving.FullFileIsSource | crates/unidrop-core/src/core/transfer_engine.rs:1115-1121 | A file holding every counted chunk is the source |
| Receiving.AbortIsThirdFailure | crates/unidrop-core/src/core/transfer_engine.rs:1348-1361 | The tag-failure breaker opens exactly at the third failure of the session, whatever chunks failed |
| Receiving.ReceiverTask.OnMessage | crates/unidrop-core/src/core/transfer_engine.rs:931-1150 | One pass of the receiver loop in place: decode, checks, decrypt, write, ACK or NACK, count, then verification of file after file |
| Receiving.ReceiverTask.VerifyFiles | crates/unidrop-core/src/core/transfer_engine.rs:1120-1142 | Verifies the files in order and stops at the first that cannot be read or has another hash |
| Receiving.VerifyAllDecides | crates/unidrop-core/src/core/transfer_engine.rs:1117-1295 | The files are kept exactly if each can be read and has its hash; otherwise the directory is removed |
| Receiving.ReceiverTask.CountTagFailure | crates/unidrop-core/src/core/transfer_engine.rs:1348-1361 | Both counters rise by one and the abort answer is the code's |
| Replies.ThreeTagFailures | crates/unidrop-core/src/core/transfer_engine.rs:979-1042 | A wrong tag: the first two of a session leave files, chunks, bytes and phase alone and are answered by one NACK that the sender reads as a request for that very chunk; the third fails the transfer, removes the files and is not answered |
| Replies.TagsCountedInRuns | crates/unidrop-core/src/core/transfer_engine.rs:1348-1361 | In every run no chunk has failed its tag more often than all chunks together, which the statement on three failures starts from |
| Replies.DamagedIsAskedFor | crates/unidrop-core/src/core/transfer_engine.rs:958-972 | A chunk with a wrong length or checksum changes nothing and is answered by one NACK for that very chunk |
| Replies.Unanswered | crates/unidrop-core/src/core/transfer_engine.rs:944-953 | A message shorter than a header leaves no trace; one with a refused header ends the transfer; neither is answered |
| Replies.ForeignItemIsIgnored | crates/unidrop-core/src/core/transfer_engine.rs:1046-1049 | A sound chunk of an item outside the offer changes nothing and is not answered |
| Replies.ChunkIsStored | crates/unidrop-core/src/core/transfer_engine.rs:1052-1070 | The bytes of a sound chunk land at its index times 4 MB, less 16 bytes a chunk when sealed, in its item's file; a gap reads as zeros, all other bytes and files stay |
| Replies.ChunkIsCounted | crates/unidrop-core/src/core/transfer_engine.rs:1084-1121 | It enters its item's set and its bytes are added if it is new; verification starts exactly when every item has as many chunks as offered; no tag counter moves |
| Replies.WrittenIsAcknowledged | crates/unidrop-core/src/core/transfer_engine.rs:1065-1082 | A chunk is acknowledged, by one ACK for itself, exactly if it was written; a failed write ends the transfer |
| Replies.ReadsAckOrNack | crates/unidrop-core/src/core/transfer_engine.rs:650-700 | On the bytes: the sender reads a message exactly if it starts with an admitted header of type 2 or 3, as an ACK or NACK of the item and chunk in bytes 20 to 27 |
| ChunkPlan.CountIsCeiling | crates/unidrop-core/src/core/transfer_engine.rs:315-319 | For sizes whose count fits u32 the chunk count is the ceiling of size over chunk length, and one for an empty file |
| ChunkPlan.ByteHasOneChunk | crates/unidrop-core/src/core/transfer_engine.rs:551-559 | Every byte lies in exactly one chunk, which is one of the counted ones |
| ChunkPlan.PiecesRebuildFile | crates/unidrop-core/src/core/transfer_engine.rs:551-559 | The counted pieces in order rebuild the file if and only if the count fits u32 |
| Framing.FrameReadsBack | crates/unidrop-core/src/core/transfer_engine.rs:1373-1402 | The receiver's checks give back exactly the plaintext and indices that were framed, sealed or not |
| Framing.FramePassesRelay | server/internal/controller/data_ws.go:152-174 | A frame passes the relay's checks exactly when its plaintext is at most one chunk long, and then fits the pool buffer |
| Framing.ForwardedFits | server/internal/controller/data_ws.go:152-177 | Whatever the forward pump lets through fits the buffer it is copied into |
| Framing.ReverseFramesFit | server/internal/controller/data_ws.go:219-250 | The client's ACK and NACK frames pass the reverse pump and are exactly 64 bytes |
| Framing.ReverseChecksAdmitLonger | server/internal/controller/data_ws.go:226-252 | Whatever is appended to a frame that passes the reverse pump passes too, and a frame that passes fits its 64-byte buffer exactly if nothing follows the header |
| Framing.FrameSays | crates/unidrop-core/src/core/transfer_engine.rs:1373-1402 | The header of a frame names session, item, chunk and count; length and checksum are those of what follows; flag 4 marks the last chunk, flag 1 and the nonce a sealed one |
| Framing.MismatchIsSeen | crates/unidrop-core/src/core/transfer_engine.rs:955-972 | A frame is found damaged exactly if its length or checksum does not match its header, before any tag is looked at |
| Framing.TagIsChecked | crates/unidrop-core/src/core/transfer_engine.rs:974-1044 | A sealed frame that matches its header is taken exactly if its tag opens under the nonce of its item and chunk |
| Framing.ForwardedExactly | server/internal/controller/data_ws.go:144-174 | The forward pump lets through exactly the encodings of valid data headers followed by as many bytes as they declare |
| Framing.ReturnedExactly | server/internal/controller/data_ws.go:226-248 | The reverse pump lets through exactly the encodings of valid ACK, NACK and probe headers without payload, with anything behind them |
| BinaryHeader.DecodeEncode | crates/unidrop-core/src/protocol/binary_header.rs:115-188 | decode(encode(h) with any payload) is h exactly for the headers the format admits, in both languages |
| BinaryHeader.EncodeDecode | crates/unidrop-core/src/protocol/binary_header.rs:115-188 | encode(decode(b)) is b for every accepted 64-byte buffer, in both languages |
| BinaryHeader.DecodersAgree | server/internal/protocol/binary_header.go:143-177 | Go accepts what Rust accepts with the same fields, and accepts more only for unknown chunk types |
| BinaryHeader.ReverseReadsBack | crates/unidrop-core/src/protocol/binary_header.rs:81-113 | ACK and NACK headers read back as built |
| BinaryHeader.EncodeInto | crates/unidrop-core/src/protocol/binary_header.rs:115-134 | Writes the header into the front of the caller's buffer, leaves the rest, fails without a write if it is too short |
| BinaryHeader.WireFormat | crates/unidrop-core/src/protocol/binary_header.rs:115-134 | The place of every field in the 64 bytes, all numbers big-endian, types 1 to 4 |
| BinaryHeader.RefusedBuffers | crates/unidrop-core/src/protocol/binary_header.rs:136-188 | Which buffers are refused and for which first reason, on the bytes; a payload may have 4 MB and no byte more |
| BinaryHeader.DataHeader | crates/unidrop-core/src/protocol/binary_header.rs:58-79 | A constructed data header starts with the bytes UD, 1, 1, names its chunk, flags the last one and has a zero nonce |
| BinaryHeader.ReverseHeader | crates/unidrop-core/src/protocol/binary_header.rs:81-113 | A constructed ACK or NACK names the chunk and declares nothing else |
| E2ee.NoncesSeparate | crates/unidrop-core/src/core/e2ee.rs:123-139 | Data nonces are equal only for the same item and chunk, and never equal the metadata nonce |
| E2ee.SealThenOpen | crates/unidrop-core/src/core/e2ee.rs:199-264 | Opening a sealed offer gives back preview, paths, hashes and is_dir of all items and changes no size or count, if and only if duplicated item indices lose nothing |
| E2ee.DistinctIsRecoverable | crates/unidrop-core/src/core/e2ee.rs:199-264 | Pairwise distinct item indices are enough for that |
| E2ee.WireCopyHides | crates/unidrop-core/src/core/e2ee.rs:199-229 | Non-leakage: two offers that differ only in preview, relative paths and hashes have equal wire copies but for the sealed field |
| E2ee.WireCopyKeeps | crates/unidrop-core/src/core/e2ee.rs:199-229 | The wire copy keeps session, type, sizes, counts and item indices, and says that it is encrypted, with version 1 |
| E2ee.OpenRefuses | crates/unidrop-core/src/core/e2ee.rs:239-264 | Opening succeeds exactly if the sealed field is there, is base64, has its tag and parses; each error names the first of these that fails |
| E2ee.NonceBytes | crates/unidrop-core/src/core/e2ee.rs:123-139 | The bytes of both nonces: item, chunk and domain, big-endian |
| E2ee.RestoreInPlace | crates/unidrop-core/src/core/e2ee.rs:256-264 | The in-place loop with its search by item index equals the restoring function |
| Offers.PrepareOffer | crates/unidrop-core/src/core/transfer_engine.rs:265-361 | Items and paths are aligned with the usable files in order, the preview is the only file's relative path or the summary, nothing is sealed yet, and each error arises exactly as in the code |
| Offers.ScanFiles | crates/unidrop-core/src/core/transfer_engine.rs:277-333 | One item per usable file until one cannot be opened, with the wrapping running total |
| Offers.PreparedDescribes | crates/unidrop-core/src/core/transfer_engine.rs:294-332 | A prepared offer describes the files' contents if and only if item count and sizes fit the wire's integers |
| Offers.WrappedSumIsSum | crates/unidrop-core/src/core/transfer_engine.rs:295-296 | The wrapping running sum is the mathematical sum wrapped once |
| Offers.ItemsSay | crates/unidrop-core/src/core/transfer_engine.rs:294-332 | Each item names its own file's relative path and hash; up to 2^32 - 1 chunks its size is the file's and its count the ceiling over 4 MB, less 16 bytes when encrypted, one for an empty file |
| Offers.TotalIsSumOfItems | crates/unidrop-core/src/core/transfer_engine.rs:295-296 | The declared total is the sum of the items' declared sizes wrapped once |
| Offers.UsableConcat | crates/unidrop-core/src/core/transfer_engine.rs:277-293 | The usable files keep their order |
| Offers.UsableOne | crates/unidrop-core/src/core/transfer_engine.rs:277-293 | A directory or a file without metadata is left out, any other file stays |
| FolderExpansion.ExpandSelection | crates/unidrop-core/src/core/transfer_engine.rs:100-167 | The explicit-stack loop terminates on every finite tree, yields the recursive preorder, and fails exactly when that has a duplicate relative path, naming both bearers |
| FolderExpansion.WalkFolder | crates/unidrop-core/src/core/transfer_engine.rs:131-163 | One folder: the stack loop outputs the preorder of that folder |
| FolderExpansion.RoundKeepsPreorder | crates/unidrop-core/src/core/transfer_engine.rs:132-163 | Each round keeps output followed by the preorder of what is on the stack |
| FolderExpansion.PushReversed | crates/unidrop-core/src/core/transfer_engine.rs:160-162 | Pushing the sorted subdirectories last-first makes them come off in order before what lay below |
| FolderExpansion.SortSorts | crates/unidrop-core/src/core/transfer_engine.rs:155-156 | The sort returns the same nodes in order of relative path |
| FolderExpansion.PushSelected | crates/unidrop-core/src/core/transfer_engine.rs:68-85 | Appends and records, or reports the earlier bearer of the same relative path |
| FolderContents.FolderYieldsExactly | crates/unidrop-core/src/core/transfer_engine.rs:131-163 | A selected folder yields exactly the files that some path of names leads to through readable directories, under these names joined to the folder's two paths; links to files count, everything else is skipped |
| FolderContents.FilesBeforeSubfolders | crates/unidrop-core/src/core/transfer_engine.rs:153-162 | A folder yields its files in ascending order of relative path, then its subfolders in that order, each in the same way |
| FolderContents.LessIsLexicographic | crates/unidrop-core/src/core/transfer_engine.rs:155-156 | The order of relative paths is lexicographic, a prefix first |
| FolderContents.SelectionsInOrder | crates/unidrop-core/src/core/transfer_engine.rs:100-130 | Selections are expanded one after another |
| FolderContents.SingleSelections | crates/unidrop-core/src/core/transfer_engine.rs:100-130 | A selected file stands for itself under its own name, an unreadable path for nothing |
| Limits.CheckOffer | server/internal/limits/limits.go:171-225 | The loops compute the first broken rule in the fixed order |
| Limits.CheckContent | server/internal/limits/limits.go:227-253 | The content tier is chosen by data type, the others unbounded by it |
| Limits.ClipboardViolation | server/internal/limits/limits.go:259-278 | Clipboard content is bounded by its declared total and by each item |
| Limits.CheckIsExact | server/internal/limits/limits.go:171-225 | The verdict is nil exactly for offers within the limits in mathematical integers and for those whose excess the int64 wrap hides |
| Limits.OneItemRule | server/internal/limits/limits.go:227-278 | For one item with the item and total limits off: an IMAGE is refused exactly above the image limit by its size or the declared total, a TEXT likewise by the text limit, anything else exactly above the single-file limit by its size |
| Limits.TiersExclude | server/internal/limits/limits.go:227-253 | The verdict of an IMAGE does not depend on the text and file limits, and so for each kind |
| Limits.CodeHasCause | server/internal/limits/limits.go:171-253 | Each verdict code has its own cause in the offer's sizes, in the fixed order |
| Limits.BoundedLimitsNeverWrap | server/internal/limits/limits.go:200-222 | With positive item and content limits whose product is below 2^63, nil means within the limits and nothing else |
| Limits.WrapAdmitsExcess | server/internal/limits/limits.go:200-222 | Three items of 2^62 bytes pass a total limit of 1000 when no other limit is set |
| Limits.SealedSameVerdict | server/internal/limits/limits.go:171-225 | The sealed offer gets the same verdict code as the original |
| Limits.PrecheckFiles | crates/unidrop-core/src/send_flow.rs:65-123 | Succeeds exactly when some file is usable and no limit is exceeded, with the usable files; each error names its own cause |
| Limits.PrecheckAgrees | crates/unidrop-core/src/send_flow.rs:65-123 | The server passes a prepared file offer exactly when the precheck passed and neither a size nor the total turned negative |
| Limits.AllThreeAgree | crates/unidrop-core/src/send_flow.rs:65-123 | With bounded limits and real file lengths precheck, server and the mathematical rule agree |
| Limits.PrecheckAdmitsNegativeTotal | crates/unidrop-core/src/send_flow.rs:65-123 | Two different files of 2^62 bytes under a total limit alone pass the precheck and are refused as malformed by the server |
| Relay.QuotaHolds | server/internal/relay/relay_manager.go:149-206 | Under a positive transfer limit and monotone time every reachable state has at most that many live authorizations per account, whatever the pipe limit |
| Relay.PipeRefusalExactly | server/internal/relay/relay_manager.go:374-382 | The per-account pipe refusal can happen in some run exactly for a pipe limit between 1 and the global cap that is not shielded by a positive transfer limit of at most its size |
| Relay.PipeLimitUnreachable | server/internal/relay/relay_manager.go:374-376 | In particular it never happens when both limits are one positive number, as the server sets them |
| Relay.ReauthorizeNotRefused | server/internal/relay/relay_manager.go:177-206 | Re-authorizing a live session with its own pair is never refused |
| Relay.PipeLimitReachable | server/internal/relay/relay_manager.go:374-376 | For every such pair of limits, a run of authorizations and connections into the refusal |
| Relay.RunsArePaired | server/internal/relay/relay_manager.go:307-386 | In every reachable state each pipe has an authorization with the same account and device pair |
| Relay.OrphanTeardownUnreachable | server/internal/relay/relay_manager.go:452-486 | The branch for a pipe without authorization is never taken; teardown succeeds exactly for the entry's own account and devices |
| Relay.PipesBounded | server/internal/relay/relay_manager.go:378-382 | The global cap holds in every reachable state |
| Relay.SweepIsExact | server/internal/relay/relay_manager.go:523-558 | A sweep removes exactly the idle pipes with their authorizations and the authorizations that bind nothing, and changes no other entry |
| Relay.NonInterference | server/internal/relay/relay_manager.go:149-206 | No authorize or teardown of another account touches an account's live entries or their pipes |
| Relay.LiveEntryStable | server/internal/relay/relay_manager.go:149-558 | A live entry changes only by its own teardown, its own re-authorization, or the sweep of its idle pipe |
| RelayGrants.AdmittedExactly | server/internal/relay/relay_manager.go:272-304 | Over any run: a dial passes the check if and only if the session's entry still binds, the token is the one its last successful authorization carried, and the device is that call's sender or receiver in its role, with the right peer if one is named |
| RelayGrants.RefusalsExactly | server/internal/relay/relay_manager.go:272-304 | Which refusal the others meet |
| RelayGrants.PipeOnlyForEntitled | server/internal/relay/relay_manager.go:307-386 | Over any run only a dial entitled by the last grant gets a pipe, for the granted pair and stamped now; a refused one changes nothing |
| RelayGrants.AdmittedIsConnected | server/internal/relay/relay_manager.go:369-386 | An admitted dial is turned away exactly if it needs a new pipe while its account has its limit of pipes or the relay 200 |
| RelayGrants.EntryIsLastGrant | server/internal/relay/relay_manager.go:149-206 | Over any run an entry is what the last successful authorization of its session carried, lifetime included |
| RelayGrants.AuthorizeOutcome | server/internal/relay/relay_manager.go:149-206 | Which refusal an authorization meets, in terms of the entries and pipes, and the count it reports |
| RelayGrants.TeardownIsExact | server/internal/relay/relay_manager.go:452-486 | A teardown takes exactly its session away or changes nothing |
| RelayGrants.ActivityKeepsPipe | server/internal/relay/relay_manager.go:523-558 | A pipe that carried data outlives every sweep until its timeout has passed since |
| Relay.RelayManager.AuthorizeSessionIfUnderLimit | server/internal/relay/relay_manager.go:149-206 | In place equals the state function: conflict, concurrency, random failure, grant |
| Relay.RelayManager.CheckAuthorization | server/internal/relay/relay_manager.go:272-304 | In place equals the state function |
| Relay.RelayManager.ValidateAndGetOrCreatePipe | server/internal/relay/relay_manager.go:307-386 | Equals the state function; the pipe returned is the one in the map and is open |
| Relay.RelayManager.RemovePipeForSession | server/internal/relay/relay_manager.go:452-486 | Equals the state function and closes the pipe it removes; keeps: exactly the removed pipes are closed |
| Relay.RelayManager.SweepIdlePipes | server/internal/relay/relay_manager.go:523-558 | Deleting while iterating equals the set-based sweep; exactly the idle pipes are returned and closed |
| Relay.RelayManager.CountAuthorized | server/internal/relay/relay_manager.go:251-262 | Counts the account's live entries other than the given one |
| PooledRelay.BuffersNeverShared | server/internal/relay/buffer_pool.go:31-43 | Over any run of any number of sessions on one pool, with handlers that end and are followed by others: no buffer is pooled while held, held by two sessions, or in two places of one |
| PooledRelay.ForwardIsFifo | server/internal/controller/data_ws.go:139-216 | What is written to the sockets of successive receiver handlers is a byte-exact prefix of the frames PushForward accepted; what arrives is that prefix without at most one frame per handler, and a prefix under a single one |
| PooledRelay.BackwardIsFifo | server/internal/controller/data_ws.go:110-133 | Over every frame the reverse pump's checks admit: the same for the ACKs, with further failures only in the final drain, and every accepted frame has 64 bytes |
| PooledRelay.OverrunLosesBuffer | server/internal/controller/data_ws.go:250-253 | An admitted frame that is longer than its buffer, which only the reverse pump can meet, ends that pump and loses the buffer taken for it, and changes nothing else |
| PooledRelay.LostStaysLost | server/internal/relay/buffer_pool.go:66-77 | A lost buffer never comes back into the pool or a lane |
| PooledRelay.AcceptedWereAdmitted | server/internal/controller/data_ws.go:152-183 | Only frames that passed the pump's checks and fitted their buffer are ever accepted |
| RelayConservation.LostAreOverruns | server/internal/relay/buffer_pool.go:31-43 | Conservation over any run: the pool and the sessions hold every buffer, except exactly one for each overrun |
| RelayConservation.ForwardLosesNone | server/internal/controller/data_ws.go:152-183 | In the data direction nothing overruns and no buffer is lost |
| RelayConservation.RunIsBounded | server/internal/relay/pipe.go:69-98 | In every run pooled buffers have their full length and a channel holds at most 4 frames forward and 16 in reverse |
| RelayConservation.DropsBounded | server/internal/controller/data_ws.go:179-183 | In every run a session drops at most one frame for each reading handler it had |
| RelayBuffers.Direction.Accept | server/internal/controller/data_ws.go:176-183 | With real shared slices: a queued frame is appended to the channel's byte strings; a frame that fails the checks, finds no room or does not fit changes none of them; in the last case the pool is one buffer short, in all others no buffer is lost |
| RelayBuffers.Direction.Deliver | server/internal/controller/data_ws.go:206-211 | The socket gets the oldest frame's bytes, its buffer goes back to the pool, and the others stay byte for byte |
| RelayBuffers.Direction.Push | server/internal/relay/pipe.go:69-98 | A push appends or refuses for a full channel or a closed pipe |
| RelayBuffers.BufferPool.Get | server/internal/relay/buffer_pool.go:31-33 | Hands out a pooled or a new buffer at full length that the pool no longer holds |
| RelayBuffers.BufferPool.Put | server/internal/relay/buffer_pool.go:36-43 | Takes a large enough buffer back at full length and drops a smaller one |
| Handshake.StepKeepsInv | crates/unidrop-core/src/signal_router.rs:235-408 | Every step of clients, server, network, clock and relay keeps the handshake invariant |
| Handshake.StartsAtMostOnce | crates/unidrop-core/src/signal_router.rs:316-408 | Over any interleaving each side of a session starts its data task at most once |
| Handshake.SidesAgree | crates/unidrop-core/src/signal_router.rs:316-408 | Both sides carry the same token and name each other |
| Handshake.DialsAreAccepted | server/internal/relay/relay_manager.go:272-304 | What a client dials with passes the data plane's check until the authorization has ended |
| Handshake.HandshakeCanComplete | crates/unidrop-core/src/signal_router.rs:235-408 | Whenever the relay has room, some run brings both sides of a new session to dial with the server's token, whether the receiver accepts at once or the user accepts by hand |
| Handshake.EndsOnlyBy | server/internal/controller/control_ws.go:345-400 | The authorization first ends only by expiry without a pipe, a participant's teardown, or the sweep of its idle pipe |
| HandshakeEntries.EntriesHeld | crates/unidrop-core/src/signal_router.rs:96-146 | In every run each side keeps the entry it needs, the receiver from its accept on, automatic or by hand, until it dials with it or a refusal or failure takes it |
| HandshakeEntries.FailedNeverDials | crates/unidrop-core/src/signal_router.rs:466-500 | Once the failure of a session whose offer is past was delivered to a device, that device never dials for it |
| HandshakeEntries.RefusedNeverDials | crates/unidrop-core/src/signal_router.rs:316-408 | Nor after a refusal, or a grant for which it could derive no key |
| HandshakeEntries.OnlyParticipantsAreAccepted | server/internal/relay/relay_manager.go:272-304 | The converse of DialsAreAccepted, over every reachable world: until the authorization ended the check passes if and only if the token is the granted one and the device and peer are those of the dispatch, in that role |
| HandshakeEntries.GrantLasts | server/internal/controller/control_ws.go:345-393 | A grant binds for five minutes for the pair that the answer names |
| SignalRouting.SignalRouter.HandleOffer | crates/unidrop-core/src/signal_router.rs:260-314 | In place equals the handshake function for each receive decision |
| SignalRouting.SignalRouter.RespondPendingOffer | crates/unidrop-core/src/signal_router.rs:96-111 | Answers a waiting offer once; an error and no change when it is not waiting |
| SignalRouting.SignalRouter.ConfirmTimeout | crates/unidrop-core/src/signal_router.rs:200-232 | The watchdog refuses only an offer that itself has waited the full time |
| SignalRouting.SignalRouter.HandleAnswer | crates/unidrop-core/src/signal_router.rs:316-420 | The sender's entry is tried first, the entry used is consumed, refusals release both maps |
| SignalRouting.SignalRouter.HandleFailure | crates/unidrop-core/src/signal_router.rs:466-500 | A failure releases both maps |
| SignalRouting.HandleServerAnswer | server/internal/controller/control_ws.go:345-393 | Over the relay manager: grant, echo and forward with the token, or a failure to both sides |
| CacheSweep.SelectVictims | crates/unidrop-core/src/core/cache_manager.rs:200-275 | Victims are the expired files followed by the shortest least-recently-used prefix that brings what is kept down to the low watermark, or all |
| CacheSweep.PickLru | crates/unidrop-core/src/core/cache_manager.rs:236-275 | `remaining` is at every step the total size not chosen, without saturation, and the prefix taken is the shortest that suffices |
| CacheSweep.SelectionIsSound | crates/unidrop-core/src/core/cache_manager.rs:200-275 | No victim twice, none immune, every expired file chosen |
| CacheSweep.QuotaTakesOldest | crates/unidrop-core/src/core/cache_manager.rs:236-275 | No unlocked file that is kept was last used before a quota victim |
| CacheSweep.SelectionMeetsQuota | crates/unidrop-core/src/core/retention.rs:72-74 | What is kept is within the low watermark unless only immune files remain |
| Retention.LifetimeVictimsExactly | crates/unidrop-core/src/core/cache_manager.rs:206-226 | Without a size limit a file is a victim if and only if a lifetime is set, more than that many hours have passed since its creation, and it was not injected within the last 7200 seconds |
| Retention.QuotaVictimsNeeded | crates/unidrop-core/src/core/cache_manager.rs:229-275 | With one, what stays takes at most 80 percent of the limit or only recently injected files stay, and the last victim of the quota was needed: with it more than 80 percent stayed, up to 80 bytes |
| Retention.WatermarkIsFourFifths | crates/unidrop-core/src/core/retention.rs:72-74 | The low watermark is 80 percent of the limit or less than 80 bytes below |
| Retention.MarkProtects | crates/unidrop-core/src/core/cache_manager.rs:68-77 | Putting a session on the clipboard protects exactly its files, for 7200 seconds and no second more, and changes no other row |
| CacheSweep.SweepOrphansNothing | crates/unidrop-core/src/core/cache_manager.rs:281-344 | Under any removal failures and any injections or registrations of other files between the phases, a file indexed before and on disk after is indexed after |
| CacheSweep.SweepDropsOnlyGoneVictims | crates/unidrop-core/src/core/cache_manager.rs:281-344 | A row leaves only if its file was a victim and is gone |
| CacheSweep.SweepKeepsInjected | crates/unidrop-core/src/core/cache_manager.rs:300-344 | An entry injected during the unlocked phase keeps its row |
| CacheSweep.SweepOrphansExactly | crates/unidrop-core/src/core/cache_manager.rs:281-344 | A sweep leaves a file on disk without its row if and only if the file was last received after its predecessor had been removed and its session has no injection since that is inside the window |
| CacheSweep.ReceiveDuringSweepOrphans | crates/unidrop-core/src/core/cache_manager.rs:281-344 | A concrete schedule of that kind |
| CacheSweep.Sweep | crates/unidrop-core/src/core/cache_manager.rs:195-344 | The three phases in a row, undisturbed: a selection, the removal of what can be removed, and the table and disk the sweep function gives |
| CacheIndex.RowsStay | crates/unidrop-core/src/core/cache_manager.rs:68-77 | While one janitor is unlocked and no other commits, rows never leave and only injection marks change |
| CacheIndex.RowAtEnd | crates/unidrop-core/src/core/cache_manager.rs:68-110 | The row of every path after the phase, from the row before and the last reception and injection |
| Janitors.NoOrphan | crates/unidrop-core/src/core/cache_manager.rs:126-344 | With any number of sweeps and prunes overlapping, any removal failures and injections: a file that is not received again is indexed as long as it is on disk |
| Janitors.CommitSparesMarked | crates/unidrop-core/src/core/cache_manager.rs:150-344 | No commit of a sweep or prune drops a row whose mark is inside the window, whatever was selected before |
| Janitors.OverlapDropsRows | crates/unidrop-core/src/core/cache_manager.rs:126-178 | A prune that begins and ends inside a sweep's unlocked phase does take a row away from under it: a concrete run |
| CacheIndex.RemovedIsGone | crates/unidrop-core/src/core/cache_manager.rs:281-297 | A removed file is off the disk unless received again, and only listed files leave the disk |
| CacheIndex.InjectionRecorded | crates/unidrop-core/src/core/cache_manager.rs:68-77 | A row carries the time of its session's last injection |
| HistoryPrune.CandidatesAreSafe | crates/unidrop-core/src/storage/history_repo.rs:248-297 | A session is a candidate exactly when it is the account's, terminal, not immune, and not among the newest `limit` it lists |
| Retention.CandidatesExactly | crates/unidrop-core/src/storage/history_repo.rs:248-297 | In the rows' own terms: a session is a candidate if and only if a limit is set, it is the account's, not PENDING or TRANSFERRING, at least that many of the account's sessions are newer by creation time and row id, and none of its files was injected within 7200 seconds |
| Retention.PrunedExactly | crates/unidrop-core/src/core/cache_manager.rs:126-178 | An undisturbed prune deletes a candidate if and only if none of its files resists removal or was injected by then |
| Retention.ListedNewestFirst | crates/unidrop-core/src/storage/history_repo.rs:164-196 | The list shows the account's entries by descending creation time, then descending row id |
| HistoryPrune.ResetIsExact | crates/unidrop-core/src/storage/history_repo.rs:207-217 | The startup reset turns exactly PENDING and TRANSFERRING into FAILED and touches nothing else |
| HistoryPrune.PruneKeepsLists | crates/unidrop-core/src/storage/history_repo.rs:164-196 | Deleting any candidates leaves the account's first `limit` entries and every other account's lists as they were |
| HistoryPrune.SecondPruneIsEmpty | crates/unidrop-core/src/storage/history_repo.rs:248-297 | A second prune selects nothing |
| HistoryPrune.PruneBound | crates/unidrop-core/src/storage/history_repo.rs:248-297 | At most `limit` rows plus the protected ones remain |
| HistoryPrune.ResetThenPruneBound | crates/unidrop-core/src/storage/history_repo.rs:207-246 | After the startup reset only immune sessions can exceed the limit |
| HistoryPrune.SelectPruneCandidates | crates/unidrop-core/src/storage/history_repo.rs:248-297 | The row-by-row selection finds exactly the candidates |
| HistoryPrune.FilterRecentlyInjected | crates/unidrop-core/src/storage/history_repo.rs:312-345 | Keeps exactly the sessions without a recent injection |
| HistoryPrune.PickDeletable | crates/unidrop-core/src/core/cache_manager.rs:126-178 | Keeps exactly the sessions of which no file failed to go |
| HistoryPrune.PruneOrphansExactly | crates/unidrop-core/src/core/cache_manager.rs:126-178 | A prune leaves a file on disk without its row if and only if the file was last received for a candidate session all of whose listed files were removed and none of whose rows carries a mark inside the window, and stayed because it was not listed, was worked off before it came, or could not be removed |
| HistoryPrune.PruneHistory | crates/unidrop-core/src/core/cache_manager.rs:126-178 | The three phases in a row, undisturbed: history, index and disk afterwards |
| HistoryPrune.PruneKeepsInjected | crates/unidrop-core/src/core/cache_manager.rs:150-178 | A session injected during the unlocked phase keeps its history row and its file rows |
| HistoryPrune.PruneKeepsFailed | crates/unidrop-core/src/core/cache_manager.rs:140-178 | A session with a file that could not be removed stays whole |
| HistoryPrune.PruneHistoryKeepsHeads | crates/unidrop-core/src/core/cache_manager.rs:126-178 | Whatever happens to files, marks and history rows in the unlocked phase, no row that is among the newest `limit` of its account when rows are deleted goes, and none of another account, unless a candidate session was recorded again |
| HistoryPrune.RecordedAgainIsDeleted | crates/unidrop-core/src/storage/history_repo.rs:50-83 | A candidate recorded again meanwhile heads the list and is deleted all the same |
| HistoryPrune.InHeadIff | crates/unidrop-core/src/storage/history_repo.rs:164-196 | A row is among the first `limit` exactly if fewer than `limit` sessions of the account are newer |
| HistoryPrune.NewestFirstSorts | crates/unidrop-core/src/storage/history_repo.rs:164-196 | The listing order is the table's rows, newest first, ties by row id |

## Left out

- WebSocket, TLS, HTTP, the desktop and mobile shells, clipboard and notification calls: I/O and user interface.
- AES-GCM, HKDF, SHA-256, HMAC and CRC32 internals: parameters with the laws stated above.
- SQL text and SQLite: tables are maps or sequences of rows; the LRU query may break ties in any order.
- GetOrCreatePipe (server/internal/relay/relay_manager.go:389): it makes pipes without authorization and has no caller.
- PathGuard: target paths are used as given.
- The sender's progress counter `transferred_bytes`: duplicate ACKs add to it again, so nothing exact holds of it.
- Offers built from memory (clipboard text and images): one item, framed and transferred like a file.
- Registry, nonce cache, identifier grammar, settings migration, version comparison, reconnect backoff: easy members.
- User-facing message texts: verdict codes and error cases are modelled, not the wording.
- How long chunk reads that fail in the sender loop are retried: the code does not bound it.
- SenderLoop.DriveSender: a closing socket is the end of the inputs.
- Transfer.Initial: the number of chunks over all items is unbounded; the code casts it to u32, which is the same below 2^32 chunks.
- Transfer.StepKeepsInv: a frame is delivered unchanged or is rejected by the checks; undetected damage is not modelled. The channels are sets: a frame can be delivered in any order and again until it is dropped.
- TransferProgress.CanFinishExactly: says when completion stays possible, not that a lossy network brings it about; among the continuations are deliveries of damaged copies, which make the receiver ask for one chunk again (`TransferProgress.TimeoutsSuffice` does without them).
- RelayedTransfer.CompleteThroughRelay: sockets and handlers may end, but no client reconnects in the middle of a transfer, as the clients do not.
- Relay.RelayManager.ValidateAndGetOrCreatePipe: the mutex is not modelled; each method is one atomic step.
- PooledRelay.OverrunLosesBuffer: the out-of-range slice ends the handler of that connection; how the HTTP server reports it is not modelled.
- PooledRelay.ForwardIsFifo: says nothing about frames still in the channel when a pipe closes; the code drops them. A write that fails is taken not to have arrived.
- RelayBuffers.Direction.Accept: the pump's work on one frame is one step here; the interleavings of several pumps and sessions are in PooledRelay.
- CacheSweep.SweepOrphansExactly: for one janitor; with several overlapping, `Janitors.NoOrphan` gives the direction that no unreceived file is orphaned. A file counts as received when it is registered, with its bytes on disk at the same moment.
- HistoryPrune.PruneHistoryKeepsHeads: a newly recorded row is the newest of its table (the clock does not run backwards) and a session keeps its account.
- Transfer.CompleteMeansEqualFiles: the cache index rows that verification registers file by file are not part of the transfer's state.
- Handshake.DialsAreAccepted: the relay's two caps on pipes come after this check and are not part of it.
- HistoryPrune.SecondPruneIsEmpty: both prunes at the same moment, since immunity ends as time passes.
- FolderExpansion.ExpandSelection: the directory tree does not change during the walk, and names are taken as they are shown, after the lossy conversion to text.
- CacheSweep.DeleteRows: the index and history tables are values that methods take and return; the connection behind which the program keeps them is not an object of the model.
