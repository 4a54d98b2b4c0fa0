# A model of the network and thread toolkit, and what holds of it

This project models the messaging core of a C++ toolkit for network programs and
proves properties of the model:

- **The wire stack.** A sending job writes `start code | 8-byte length | payload |
  end code` with short writes allowed; an asynchronous reader takes it back through
  a fixed buffer and resynchronises when a byte does not match. Around it sit record
  packing, encryption, compression and the jobs that pass a message from thread to
  thread (`Bytes`, `Combiner`, `Compressor`, `Decoding`, `Folder`, `Frames`, `Resync`, `Sender`,
  `Pipeline`, `DataHandler`).
- **The priority thread pool.** Queues per priority, workers with ordered priority
  lists, a condition variable per worker, and `push`, `notify_callback`, `pause` and
  `stop` as interleaved atomic steps (`JobPool`, `Runs`, `PoolMachine`, `PoolControl`,
  `Wakeup`, `Drain`, `DrainFails`, `Ledger`, `ThreadPool`). `WireSafety` puts the sending
  jobs on top of that machine, and `JobRouting` asks which workers run the jobs of a
  message.
- **Two protocols.** The connection handshake of client and session (`Handshake`,
  `NetworkSession`, `NetworkClient`) and file batches with their concurrent reports
  (`FileManager`, `FileBatch`, `FileTransfer`).
- **Text.** Splitting and replacing (`Converter`).

Code that changes state in place is modelled by classes, arrays and loops, and each
method is proved against a function of its inputs or of the old state; the properties
are lemmas about those functions. Concurrent code is a state machine: a step is one
lock-protected section or one test of an atomic flag, and a property of the machine
holds after every sequence of enabled steps.

## What the model shows about the code

Some expected properties are false of the code. In each case the project proves
exactly when they hold, or shows a run in which they fail.

- **A graceful stop may leave jobs queued.** A worker that pops nothing because another
  worker was faster tests the stop flag and leaves without looking at its queues
  again (ThreadPool/ThreadWorker.cpp:162-169). A graceful stop always drains a priority
  exactly when it is served, by workers that share queues among themselves only
  (`DrainFails.DrainsExactlyWhenClosed`). In the pool of a connection that is so for
  Top always, for High if there is any worker besides, for Normal if it has a worker and
  there is no dedicated High one, and for Low if it has a worker and there is neither a
  High nor a Normal one (`ThreadPool.WhatAConnectionDrains`). An immediate stop, which is
  what a connection calls, settles every early job of every pool: it was run once or
  destroyed (`Ledger.StopSettlesEveryEarlyJob`).
- **A refusal is never sent.** The session expires before it posts the answer with
  `condition` false, and the compress job of an expired connection refuses to run
  (Network/NetworkSession.cpp:158-160, Network/DataHandler.cpp:643-646). A client is never
  told that it was refused, and its branch for that case (Network/NetworkClient.cpp:355-372)
  is not reached by answers of this session (`Handshake.RefusalsStayInside`). A
  confirming answer that was compressed before the session expired may still leave: an
  expired session puts nothing on the wire exactly if nothing was framed when it expired
  (`Handshake.SilentExactly`), whenever the key test passes there is a run in which
  something was (`Handshake.ExpiredSessionMaySpeak`), and what was leaves at most once
  (`Handshake.ExpiredSessionIsQuiet`).
- **Starting again needs an expiry.** `start` keeps the key and iv of an earlier
  connection, so that the answer, which is sent in clear, is deciphered
  (Network/NetworkClient.cpp:52-83). A confirmed client of an encrypting session that
  starts again can get in only if it expired first, through `stop` or its failing read
  (`Handshake.RestartNeedsExpiry`, `Handshake.GetsInExactly`).
- **The registered key is compared up to its first zero** (Network/NetworkSession.cpp:154),
  and a session takes one guess (`Handshake.KeyTestDecides`,
  `NetworkSession.FirstMessageDecides`).
- **Messages need workers that a pool may lack.** What is read is decompressed by Low
  workers alone, so that without one nothing that arrives is handled, the handshake
  included; what is sent, connection messages aside, is enciphered by Normal or Low ones
  alone (Network/DataHandler.cpp:213-236, `JobRouting.ReadJobsAreServed`,
  `JobRouting.SentJobsAreServed`).
- **A client's `server_id_` holds the client's own id**, because the session has taken over
  that id before it answers (Network/NetworkSession.cpp:150 and 311,
  `Handshake.ServerIdIsClientId`).
- **Batches can be stuck, early or overfull.** An open batch can never be delivered any
  more exactly if it has no callback job and either too many reports, or all of them and
  no check to come (`FileManager.StuckExactly`). So it goes for a batch of no files, for
  one report too many before the last due one was checked, and for a full batch whose job
  the pool refused. A report on a full batch with a callback job makes that job deliver
  one too many (`FileManager.ReportIsSafeExactly`). Two reports recorded before either is
  checked queue two callback jobs; if the guid is used again, the second one delivers the
  new batch unfilled (`FileManager.StaleJobIsReachable`,
  `FileManager.StartIsSafeExactly`). Messages pass through pools of several workers, so
  that one of a file can overtake the opening; its report is dropped, and the batch is
  then never delivered. When all messages are handled it has been delivered exactly if
  none came before the opening (`FileTransfer.FilesArrive`).
- **A sending job that fails inside its payload damages what follows.** The next jobs write
  on, and the reader takes what the payload lacks from their frames
  (Network/SendingJob.cpp:112-142, Network/DataHandler.cpp:498-556): the next frame is
  swallowed, or even emitted as the end of a payload that nobody sent
  (`Resync.BehindPartial`, `Resync.NextFrameIsSwallowed`, `Resync.NextFrameIsMixedIn`).
- **A leading byte order mark loses two bytes** (Utilities/Converter.cpp:311-314): text and
  archive paths come back exactly if they do not begin with one, and the callback job of a
  guid that does misses its batch (`FileManager.MarkedGuidIsMissed`).
- **The length guard of `divide` is computed in `size_t`** (Utilities/Combiner.cpp:43) and keeps
  the copy inside the vector exactly if the declared end does not wrap around
  (`Combiner.GuardIsExact`, `Combiner.GuardAdmitsWrapped`).

## Hypotheses

- The reading buffer has at least 8 bytes, as the length read needs (Network/DataHandler.cpp:440);
  `size_t` is 64 bits and little-endian.
- LZ4 is a pair of stateful functions of which the second inverts the first block by
  block (`Compressor.Inverts`); the cipher is a pair of functions of which the second
  inverts the first for equal key and iv (`Pipeline.CipherInverts`).
- A read that completes without error has exactly the bytes it asked for, as
  `transfer_exactly` says.
- Tokens for splitting and replacing are not empty; with an empty token the loops do not end.
- All workers of the machine are running and are not changed while it runs.
- The file system, the cipher's random keys, short writes and refused pushes are
  parameters of the operations or of the steps.

## Model

| member | source | states |
|---|---|---|
| `Combiner.Append` | Utilities/Combiner.cpp:8-23 | the vector grows by exactly one record: the 8-byte length and the reversed bytes, nothing else for an empty source |
| `Combiner.ReverseInPlace` | Utilities/Combiner.cpp:50 | the array holds its old content backwards |
| `Combiner.Divide` | Utilities/Combiner.cpp:25-54 | reads the record at the cursor, or nothing on a short or overlong one, and moves the cursor as the code does, never back and never past the end |
| `Combiner.GuardIsExact` | Utilities/Combiner.cpp:43 | the wrapped guard admits only records inside the vector if and only if the declared end fits a `size_t` |
| `Combiner.GuardAdmitsWrapped` | Utilities/Combiner.cpp:43 | vectors for which the wrapped guard admits a record beyond the vector |
| `Combiner.DivideIsMonotone` | Utilities/Combiner.cpp:35-51 | on any bytes the index does not move back or out, and how far it moves tells empty from non-empty results |
| `Combiner.RecordBytes` | Utilities/Combiner.cpp:8-23 | byte for byte: the length with its least significant byte first, and then the source from its last byte to its first |
| `Combiner.DivideIsExact` | Utilities/Combiner.cpp:35-53 | byte for byte: a record that lies inside the vector comes out backwards with its declared length, and one that is longer than the rest yields nothing and takes the length field alone |
| `Combiner.DivideRecord` | Utilities/Combiner.cpp:8-54 | a record written at an index is read back, with the index right behind it |
| `Combiner.RecordsRoundTrip` | Utilities/Combiner.cpp:8-54 | any list of byte strings, empty ones included, appended behind any prefix is divided into the same list, with the index exactly at its end |
| `Combiner.ReadRecords` | Utilities/Combiner.cpp:8-54 | the same for a vector that holds the list alone |
| `Compressor.PackTurn` | Utilities/Compressor.cpp:43-80 | one turn of the compressing loop: the block, its header and its compressed form, or the end |
| `Compressor.Compress` | Utilities/Compressor.cpp:12-96 | the loop ends and returns the framed blocks of the recursive definition, or nothing if there are none |
| `Compressor.DecodeTurn` | Utilities/Compressor.cpp:129-166 | one turn of the decompressing loop, with its signed length tests |
| `Compressor.Decompress` | Utilities/Compressor.cpp:98-182 | the loop ends and returns the decoded blocks of the recursive definition, or nothing |
| `Compressor.HeaderRoundTrip` | Utilities/Compressor.cpp:70-74 | both `int32_t` fields of a block header are read back |
| `Compressor.TurnOnBlock` | Utilities/Compressor.cpp:137-163 | in front of a framed block the decompressing loop takes exactly that block |
| `Compressor.BlocksRoundTrip` | Utilities/Compressor.cpp:41-167 | decoding the framed blocks returns the data up to the first block that the codec refused |
| `Compressor.CompressionRoundTrip` | Utilities/Compressor.cpp:12-182 | for every codec that inverts itself and every non-empty input, decompression returns the input if and only if the codec takes every block, and otherwise the part in front of the refused one |
| `Decoding.DecodingStops` | Utilities/Compressor.cpp:127-167 | for any framed blocks, from whatever source: exactly the blocks in front of the first one that the codec refuses, or of a size that is not positive, are written, each decoded with the one before it as dictionary |
| `Folder.Pack` | Utilities/Folder.cpp:187-191 | the reversed inner record of one file |
| `Folder.Compression` | Utilities/Folder.cpp:170-214 | the archive of all files up to the first unreadable one, and whether there was one |
| `Folder.Decompression` | Utilities/Folder.cpp:240-272 | the loop ends and writes exactly the files the archive holds, in order |
| `Folder.OuterFramingIsRecord` | Utilities/Folder.cpp:191-204 | the length and bytes written by hand are what `Combiner::append` of the inner record would write |
| `Folder.UnpackInner` | Utilities/Folder.cpp:187-251 | path and content come out of the inner record, the path as text |
| `Folder.ArchiveIsReadable` | Utilities/Folder.cpp:170-247 | every length field the extracting loop meets in an archive declares an end that fits |
| `Folder.ExtractArchive` | Utilities/Folder.cpp:170-270 | extracting an archive at any index yields its files in order |
| `Folder.ArchiveRoundTrip` | Utilities/Folder.cpp:187-270 | every list of files, empty ones included, comes back unchanged if and only if no path begins with a byte order mark |
| `Converter.TextRoundTrip` | Utilities/Converter.cpp:290-318 | text survives `to_array` and `to_string` if and only if it does not begin with a byte order mark |
| `Converter.MarkLosesTwoBytes` | Utilities/Converter.cpp:311-314 | of a marked text exactly the first two bytes are lost |
| `Converter.Split` | Utilities/Converter.cpp:23-67 | the non-empty segments of the leftmost decomposition, in order |
| `Converter.Replace2` | Utilities/Converter.cpp:71-107 | the segments of the same decomposition joined with the target |
| `Converter.Replace` | Utilities/Converter.cpp:69 | overwrites its argument with the result of `replace2` |
| `Converter.FindIsLeast` | Utilities/Converter.cpp:37 | the search finds the first occurrence at or behind its start, and none only if there is none |
| `Converter.SegmentsAreLeftmost` | Utilities/Converter.cpp:35-59 | every segment ends at the first token in it, the last has none, and joined with the token they are the source |
| `Converter.LeftmostDecomposition` | Utilities/Converter.cpp:35-59 | a list of parts is the decomposition if and only if it joins to the source and is cut leftmost |
| `Converter.DecompositionIsUnique` | Utilities/Converter.cpp:35-59 | no other list of leftmost parts joins to the same text |
| `Converter.SplitPieces` | Utilities/Converter.cpp:43-59 | no piece of a split is empty or contains the token |
| `Converter.NonEmptyKeepsOrder` | Utilities/Converter.cpp:43-59 | leaving out the empty segments leaves every other one, in order |
| `Converter.ReplaceByItself` | Utilities/Converter.cpp:83-106 | replacing a token by itself changes nothing |
| `Converter.ReplaceLength` | Utilities/Converter.cpp:83-106 | the length changes by the number of occurrences times the difference of the token lengths |
| `Converter.ReplaceBack` | Utilities/Converter.cpp:83-106 | replacing there and back returns the source when the target does not disturb the cuts |
| `Frames.RunInPieces` | Network/DataHandler.cpp:388-423 | cutting up the stream on its way does not change what the reader does |
| `Frames.SkipUnmatched` | Network/DataHandler.cpp:386-423 | bytes in which the start code is not completed leave no trace but the matcher's index |
| `Frames.ReadFrame` | Network/DataHandler.cpp:386-619 | one frame in front of anything is emitted, and reading goes on behind it |
| `Frames.ReadWire` | Network/DataHandler.cpp:386-619 | any list of frames in front of anything is emitted in order |
| `Frames.PartialFrame` | Network/DataHandler.cpp:386-619 | a frame cut off anywhere emits nothing |
| `Frames.FrameRoundTrip` | Network/SendingJob.cpp:90-142 | for all payloads, codes and buffer sizes: whole frames and a part of one more emit exactly the payloads, and whole frames leave the reader as it began |
| `Frames.ReaderRefinesParser` | Network/DataHandler.cpp:355-620 | on every stream, well formed or not, reading in chunks emits what a one-piece parser returns, whatever the buffer size |
| `Frames.NoiseIsSkipped` | Network/DataHandler.cpp:386-422 | noise between frames that leaves the start matcher at its beginning loses no frame |
| `Frames.DefaultNoise` | Network/DataHandler.cpp:44 | with the default start code, that is the noise without four 253s in a row that does not end in 253, and no other |
| `Resync.FrameBehindNoise` | Network/DataHandler.cpp:386-422 | with the default codes, a frame behind noise that has not completed the start code is read exactly if the noise does not end in 253, and is otherwise swallowed with its length misread |
| `Resync.LateFrame` | Network/DataHandler.cpp:405-422 | a reader that has matched m bytes of the start code reads a length beyond the frame and emits nothing, for every length that fits the 8 - m bytes left in the field |
| `Resync.NoiseCompletes` | Network/DataHandler.cpp:411-422 | noise completes the default start code if and only if it holds four 253s in a row |
| `Resync.BehindPartial` | Network/DataHandler.cpp:498-618 | behind a frame cut inside its payload the reader takes the missing bytes from what follows, and emits the mixture if and only if an end code happens to follow them |
| `Resync.NextFrameIsSwallowed` | Network/DataHandler.cpp:498-528 | a next frame shorter than what is missing is swallowed whole |
| `Resync.NextFrameIsMixedIn` | Network/DataHandler.cpp:533-618 | a next frame of exactly that length is emitted as the end of the cut payload, and reading goes on behind it |
| `Frames.DamagedFrameIsDropped` | Network/DataHandler.cpp:609-618 | one changed byte in an end code loses exactly that frame, none of its bytes get into another payload and the reader is as before, if and, for the reader's state, only if the bytes behind the change leave the start matcher at its beginning |
| `Frames.EndCodeIsClean` | Network/DataHandler.cpp:44-45 | they do for every change if the end code does not hold the first byte of the start code, as in the default codes |
| `Sender.Socket.Send` | Network/SendingJob.cpp:92 | a send takes some prefix of the buffer, or fails |
| `Sender.SendingJob.SendExactly` | Network/SendingJob.cpp:90-142 | a code or the length counts as sent only if the one call took all of it |
| `Sender.SendingJob.SendData` | Network/SendingJob.cpp:112-131 | the chunk loop ends, having written what the oracle let through, and says whether that was all |
| `Sender.SendingJob.Working` | Network/SendingJob.cpp:31-88 | the four parts are written one after the other up to the first that fails |
| `Sender.ChunksSucceed` | Network/SendingJob.cpp:114-128 | the payload is written whole if and only if every call of `send` takes at least one byte |
| `Sender.OffersAreBuffers` | Network/SendingJob.cpp:114-121 | no call of `send` is offered more than the buffer size, and a socket that takes all is offered that much at every call but the last |
| `Sender.ChunksAllOrPrefix` | Network/SendingJob.cpp:114-130 | success means the whole payload is out, failure a proper prefix |
| `Sender.FrameAllOrPrefix` | Network/SendingJob.cpp:44-70 | a job that reports success has written the whole frame, any other a proper prefix of it |
| `Pipeline.Receive` | Network/ReceivingJob.cpp:23-52 | hands over mode and data, or refuses on an empty message, a mode of another size or empty data |
| `Pipeline.DeliverPacked` | Network/DataHandler.cpp:336-338 | what `send` packs, the receiving job unpacks and hands to the handler of that mode |
| `Pipeline.ModesMatch` | Network/DataModes.h:7 | the number a mode is sent with finds the handler of that mode alone, and a number above 3 finds none |
| `Pipeline.DeliverRecords` | Network/ReceivingJob.cpp:36-52 | of any two records, a mode of one byte and data that is not empty are delivered, and every other pair is refused |
| `Pipeline.PayloadIs` | Network/DataHandler.cpp:641-716 | what goes into the frame: the packed message, enciphered under an active key unless it is a connection message, then compressed unless the codec takes no block of it |
| `Pipeline.CipherRoundTrip` | Network/DataHandler.cpp:702-744 | two endpoints with agreeing settings undo each other, also when an empty key turns the cipher off |
| `Pipeline.StagesRoundTrip` | Network/DataHandler.cpp:641-744 | one message of any mode passes all stages of both sides, and the handler of its mode gets its data |
| `Pipeline.EndToEnd` | Network/DataHandler.cpp:319-744 | of any list of messages the payloads are read in order through any buffer, and each gives its message to the handler of its mode |
| `DataHandler.SendingChain` | Network/DataHandler.cpp:336-716 | the jobs that follow from `send` end in one sending job for the outgoing payload, the only one of highest priority |
| `DataHandler.ReceivingChain` | Network/DataHandler.cpp:662-744 | the jobs that follow from a payload end in the receiving job for the undone payload |
| `DataHandler.JobsEndToEnd` | Network/DataHandler.cpp:319-744 | what the sending jobs of one endpoint write, the reader of the other emits, and the last job posted for each payload gives its message to the handler of its mode |
| `JobRouting.OutgoingJobs` | Network/DataHandler.cpp:341-716 | which job comes when on the way out, and each at the priority of its kind: encrypting Normal, compressing High, sending Top |
| `JobRouting.IncomingJobs` | Network/DataHandler.cpp:580-744 | the same on the way in: decompressing Low, decrypting Normal, receiving High |
| `JobRouting.TopIsSending` | Network/SendingJob.cpp:21 | of all jobs of a message, on either side, the sending job alone is posted at the highest priority |
| `JobRouting.SentJobsAreServed` | Network/DataHandler.cpp:213-236 | every job from `send` to the socket has a worker in the pool of a session or a client if and only if there is any worker besides the first, for a connection message, or a Normal or Low one, for the others |
| `JobRouting.ReadJobsAreServed` | Network/DataHandler.cpp:213-236 | every job from the reader to the handler has one if and only if there is a Low worker |
| `DataHandler.DataHandler.constructor` | Network/DataHandler.cpp:26-46 | the initial fields, with the default codes and a buffer of 1024 bytes |
| `DataHandler.DataHandler.SetCondition` | Network/DataHandler.cpp:298-315 | the hook `disconnected` is called exactly when the condition becomes Expired |
| `DataHandler.DataHandler.ResizeBuffer` | Network/DataHandler.cpp:255-263 | the buffer has the size asked for, and is a cleared new one if that is another size |
| `DataHandler.DataHandler.LineIsUp` | Network/DataHandler.cpp:357-366 | a reading step goes on only on an open socket of a connection that has not expired, and expires a connection without one |
| `DataHandler.DataHandler.ReadStartCode` | Network/DataHandler.cpp:355-424 | registers the read for the next byte of the start code with nothing received, or goes on to the length |
| `DataHandler.DataHandler.ReadLengthCode` | Network/DataHandler.cpp:426-474 | registers the read of the length |
| `DataHandler.DataHandler.ReadData` | Network/DataHandler.cpp:476-557 | registers the read of the remaining payload, or goes on to the end code |
| `DataHandler.DataHandler.ReadEndCode` | Network/DataHandler.cpp:559-620 | registers the read of the next byte of the end code, or posts the payload and starts over |
| `DataHandler.DataHandler.Complete` | Network/DataHandler.cpp:388-619 | the completion handlers over the buffer are one step of the reader; a failed read or a lost socket expires the connection, calls the hook once and registers nothing |
| `DataHandler.DataHandler.Pump` | Network/DataHandler.cpp:355-620 | all that has arrived is handled as the reader's run says, and exactly the payloads read are posted |
| `DataHandler.DataHandler.Arrive` | Network/DataHandler.cpp:355-620 | the same for a piece of the stream behind what was left over |
| `DataHandler.DataHandler.Send` | Network/DataHandler.cpp:319-353 | refuses without socket, pool or data, and otherwise posts one job: connection messages to the compressor, all others to the cipher |
| `DataHandler.DataHandler.EncryptMessage` | Network/DataHandler.cpp:690-716 | posts exactly the next job of the chain, or refuses when expired or without pool |
| `DataHandler.DataHandler.CompressMessage` | Network/DataHandler.cpp:641-660 | posts exactly the sending job with the connection's codes and buffer size, or refuses when expired or without pool |
| `DataHandler.DataHandler.DecompressMessage` | Network/DataHandler.cpp:662-687 | posts exactly the next job of the chain, or refuses when expired or without pool |
| `DataHandler.DataHandler.DecryptMessage` | Network/DataHandler.cpp:718-744 | posts exactly the receiving job, or refuses when expired or without pool |
| `JobPool.JobPool.Lock` | ThreadPool/JobPool.cpp:230 | sets the flag and touches no queue |
| `JobPool.JobPool.Push` | ThreadPool/JobPool.cpp:112-151 | refuses when locked, and otherwise appends the job to the queue of its priority and to no other |
| `JobPool.JobPool.Pop` | ThreadPool/JobPool.cpp:153-189 | removes and returns the job the specification names, or none for an empty list or empty queues |
| `JobPool.JobPool.Clear` | ThreadPool/JobPool.cpp:34-48 | empties every queue |
| `JobPool.JobPool.ClearPriority` | ThreadPool/JobPool.cpp:50-62 | empties the queue of one priority and no other |
| `JobPool.JobPool.JobCount` | ThreadPool/JobPool.cpp:197-228 | counts the jobs of the listed queues, or of all queues for an empty list |
| `JobPool.FirstServedIsFirst` | ThreadPool/JobPool.cpp:164-170 | the queue chosen is the first non-empty one of the list |
| `JobPool.CountMeansPop` | ThreadPool/JobPool.cpp:153-228 | the count over a list is positive if and only if a pop with that list returns a job |
| `JobPool.PopTakesHead` | ThreadPool/JobPool.cpp:164-184 | a pop takes the head of the first non-empty queue and leaves all other queues alone |
| `JobPool.ClearRemoves` | ThreadPool/JobPool.cpp:34-62 | clearing moves exactly the queued jobs to the removed ones |
| `JobPool.ClearEmpties` | ThreadPool/JobPool.cpp:34-62 | clearing one priority empties its queue and leaves every other, clearing all leaves none, and exactly the jobs of the emptied queues are removed |
| `JobPool.CountIsQueued` | ThreadPool/JobPool.cpp:197-228 | the count over a list is the number of jobs in its queues |
| `JobPool.CountAdds` | ThreadPool/JobPool.cpp:197-228 | the count over two lists is the sum, and over one priority the length of its queue |
| `JobPool.ApplyConserves` | ThreadPool/JobPool.cpp:34-189 | every operation keeps, per priority, pushed equal to removed followed by queued |
| `JobPool.EveryRunConserves` | ThreadPool/JobPool.cpp:34-189 | the same over every run: nothing lost, doubled or overtaken within a priority |
| `PoolMachine.PoolEffect` | ThreadPool/ThreadPool.cpp:47-278 | every step of every thread changes the queues by at most one operation |
| `PoolMachine.StepKeepsShape` | ThreadPool/ThreadPool.cpp:222-278 | priority lists never change, and the holder of the pool's mutex is where its loop says |
| `PoolMachine.StepConserves` | ThreadPool/ThreadPool.cpp:47-278 | queue conservation under every interleaving |
| `PoolControl.RefusedExactlyWhileStopping` | ThreadPool/JobPool.cpp:119-122 | in every reachable state a push passes the lock test if and only if no stop is under way, and a pool that has stopped takes pushes again |
| `PoolControl.NoneEntersDuringStop` | ThreadPool/ThreadPool.cpp:222-259 | from the lock to the return of `stop` no push passes the lock test, whatever the other threads do |
| `PoolControl.TakesFirstOfItsOwn` | ThreadPool/ThreadWorker.cpp:148-160 | in every reachable state a worker that pops takes the oldest job of the first priority of its own list that has one |
| `PoolControl.PauseReachesAll` | ThreadPool/ThreadPool.cpp:205-220 | when `pause` returns, every worker has its flag |
| `PoolControl.PausedTakesNoJob` | ThreadPool/ThreadWorker.cpp:233-246 | a paused worker finishes at most the job it has and takes no other in any run without a resume or a stop |
| `Wakeup.StepKeepsSafe` | ThreadPool/ThreadWorker.cpp:129-145 | no step makes a worker sleep on a job without a notification to come |
| `Wakeup.NoLostWakeup` | ThreadPool/ThreadWorker.cpp:62-259 | in every reachable state a worker that sleeps unpaused with a job in a queue of its list still has an undelivered notification from a push, and was not told to stop |
| `Drain.ImmediateStopDrains` | ThreadPool/ThreadPool.cpp:232-253 | an immediate stop leaves no early job of any priority queued, in every pool |
| `Drain.OneKindOfStop` | ThreadPool/ThreadPool.cpp:222-259 | no run holds both an immediate and a graceful stop |
| `Drain.StopDrains` | ThreadPool/ThreadPool.cpp:222-259 | after a stop no early job of a priority is still queued: always if the stop was immediate, and for a served and closed priority however it was |
| `Drain.StepKeepsDraining` | ThreadPool/ThreadWorker.cpp:129-181 | no step lets the last worker that could take an early job leave |
| `DrainFails.JobLeftBehind` | ThreadPool/ThreadWorker.cpp:162-169 | for every priority that is not served or not closed, a run of a graceful stop that leaves one early job queued |
| `DrainFails.DrainsExactlyWhenClosed` | ThreadPool/ThreadWorker.cpp:142-174 | a graceful stop always drains a priority if and only if it is served, by workers that share queues among themselves only |
| `Ledger.EveryJobInOnePlace` | ThreadPool/ThreadWorker.cpp:162-176 | in every reachable state an accepted job is in exactly one place: queued, in the hands of one worker, finished once, or destroyed once |
| `Ledger.GracefulDestroysNothing` | ThreadPool/ThreadPool.cpp:234-237 | no job is destroyed unless a stop is immediate |
| `Ledger.StopSettlesEveryEarlyJob` | ThreadPool/ThreadPool.cpp:222-259 | after an immediate stop every early job of every pool and priority has been run once or destroyed, never both; after a graceful one every early job of a served and closed priority has been run exactly once |
| `ThreadPool.ThreadWorker.Stop` | ThreadPool/ThreadWorker.cpp:84-108 | reports whether there was a running thread, of which none is left |
| `ThreadPool.ThreadPool.Trim` | ThreadPool/ThreadPool.cpp:96-117 | takes one priority from a worker and stops it exactly if none is left |
| `ThreadPool.ThreadPool.TrimNext` | ThreadPool/ThreadPool.cpp:96-117 | does so to the next worker and leaves all others as they were |
| `ThreadPool.ThreadPool.TrimAll` | ThreadPool/ThreadPool.cpp:95-117 | trims every worker; the ones kept are exactly those with a priority left, in their order |
| `ThreadPool.ThreadPool.RemoveWorkers` | ThreadPool/ThreadPool.cpp:84-127 | clears that queue alone and trims every worker; the pool holds exactly the old workers with a priority left, in their order, none of them with the removed one, and the result is the number of those left without |
| `ThreadPool.WithoutKeepsOthers` | ThreadPool/ThreadPool.cpp:104-107 | the removed priority is gone and all others keep their places |
| `ThreadPool.CreateThreadPool` | Network/DataHandler.cpp:213-236 | the workers of a connection with their priority lists, in order |
| `ThreadPool.WorkerLists` | Network/DataHandler.cpp:222-234 | worker by worker: Top for the first, then High alone, then Normal before High, then Low before High before Normal |
| `ThreadPool.OneTopWorker` | Network/DataHandler.cpp:222-234 | the first worker and no other serves the highest priority |
| `ThreadPool.WhatAConnectionDrains` | Network/DataHandler.cpp:222-234 | for every number of workers, exactly which priorities a graceful stop drains in every run, for the pool of a session and, with one worker more, of a client |
| `WireSafety.OneSender` | Network/NetworkClient.cpp:77 | the pools of sessions and of clients have one worker for the sending jobs |
| `WireSafety.FramesNeverInterleave` | Network/DataHandler.cpp:213-236 | in every state of every run, sends that fail included: the wire holds what the finished sending jobs wrote of their frames, job after job, and then a part of at most one more frame |
| `WireSafety.WireIsRead` | Network/SendingJob.cpp:31-70 | if no send failed, the wire is whole frames and a part of at most one more, and a reader emits exactly the payloads of the frames that are out, in that order |
| `WireSafety.ReadUpToFailure` | Network/SendingJob.cpp:44-70 | whatever fails later, the payloads of the jobs in front of the first failed one are read |
| `WireSafety.SentInPushOrder` | ThreadPool/JobPool.cpp:112-189 | in every run the jobs sent are jobs pushed, in push order, and the first ones pushed as long as nothing was destroyed |
| `FileManager.FileManager.Start` | Network/FileManager.cpp:27-40 | opens an empty batch, or refuses a guid that is open |
| `FileManager.FileManager.Record` | Network/FileManager.cpp:44-53 | appends the report to its batch, or refuses an unknown guid |
| `FileManager.FileManager.CheckCondition` | Network/FileManager.cpp:74-96 | queues the callback job exactly if the batch has as many reports as it counts |
| `FileManager.FileManager.RecordFailure` | Network/FileManager.cpp:42-56 | records, then checks |
| `FileManager.FileManager.RecordSuccess` | Network/FileManager.cpp:58-72 | records, then checks |
| `FileManager.FileManager.CheckConditionCallback` | Network/FileManager.cpp:98-124 | hands over the open batch of the guid with all its reports and forgets it |
| `FileManager.MarkedGuidIsMissed` | Network/FileManager.cpp:98-110 | the callback job of a guid delivers the batch of that guid if and only if the guid does not begin with a byte order mark |
| `FileManager.StepKeepsFaithful` | Network/FileManager.cpp:27-124 | the table always holds exactly the batches that the history says are open |
| `FileManager.BatchesAreDelivered` | Network/FileManager.cpp:27-124 | under every interleaving with careful callers: deliveries are open batches with all their reports and no other, and a full batch has a check or a callback job to come unless the pool refused it |
| `FileManager.DeliveredOnce` | Network/FileManager.cpp:98-124 | every delivery uses up one start of its guid |
| `FileManager.OpenedIsStartAndReports` | Network/FileManager.cpp:27-72 | an open batch is the last start of its guid and the reports since then, in order |
| `FileManager.StuckExactly` | Network/FileManager.cpp:74-124 | an open batch can never be delivered any more if and only if it has no callback job and either too many reports, or all of them and no check to come |
| `FileManager.StuckForever` | Network/FileManager.cpp:84-92 | one half of that: no run delivers such a batch |
| `FileManager.EmptyBatchIsStuck` | Network/FileManager.cpp:37 | a batch of no files is stuck from its start |
| `FileManager.OverReportIsStuck` | Network/FileManager.cpp:84-92 | so is a full batch with one more report before it was checked |
| `FileManager.RefusedJobIsStuck` | Network/FileManager.cpp:94-95 | and a full batch whose job the pool refuses, exactly if no other check is to come |
| `FileManager.ReportIsSafeExactly` | Network/FileManager.cpp:42-72 | a report keeps the guarantees if and only if its batch still lacks one; on a full batch with a callback job, that job delivers one report too many |
| `FileManager.StartIsSafeExactly` | Network/FileManager.cpp:98-124 | starting a batch keeps the guarantees if and only if no callback job of its guid is queued; otherwise that job delivers it unfilled |
| `FileManager.StaleJobIsReachable` | Network/FileManager.cpp:42-96 | careful callers can reach a state in which such a job is left |
| `FileBatch.SendFiles` | Network/DataHandler.cpp:117-163 | refuses unless confirmed; sends the opening message and pushes one job for each file up to the first refused push |
| `FileBatch.FileSendingJob.Working` | Network/FileSendingJob.cpp:25-68 | sends the answer to its input, a failure without the content or a success with it, as a file message |
| `FileBatch.AnswerIsFileMessage` | Network/FileSendingJob.cpp:38-67 | for the input that `send_files` builds, the answer is the message for that file |
| `FileBatch.ReceivedFile` | Network/NetworkSession.cpp:231-286 | expires an unconfirmed connection, and otherwise does to the manager what the parsed message asks for |
| `FileBatch.ParseStart` | Network/NetworkSession.cpp:245-258 | the receiver reads guid and count of the opening message |
| `FileBatch.ParseFailure` | Network/NetworkSession.cpp:245-267 | the receiver reads guid and message of a failure |
| `FileBatch.ParseSuccess` | Network/NetworkSession.cpp:245-285 | the receiver reads guid, message and exact content of a success |
| `FileBatch.ModeDecides` | Network/DataModes.h:9 | of any sound message the first byte of the second field decides: 0 opens a batch, 2 reports a failure and any other brings a file, under the guid of the first |
| `FileTransfer.OpeningIsStart` | Network/DataHandler.cpp:130-135 | the bytes of the opening message make the receiver start the batch with its count |
| `FileTransfer.MessageIsReport` | Network/NetworkClient.cpp:440-495 | the bytes of the message for a file make the receiver record that file's failure or success |
| `FileTransfer.HandledIsTwoSteps` | Network/NetworkSession.cpp:253-285 | `received_file` is that step and then the check of its own thread, with nothing in between |
| `FileTransfer.SameReports` | Network/FileManager.cpp:53-69 | the order of the reports does not matter to what is delivered, as multisets |
| `FileTransfer.BatchOfReports` | Network/FileManager.cpp:53-69 | a batch holds the reports it was given, of each kind in the order in which they were recorded, and counts all of them |
| `FileTransfer.MessageKeeps` | Network/FileManager.cpp:42-72 | a message of the batch, in any order, is dropped before the opening and is behind it a report that the batch still lacks, and the log holds exactly the reports of the latter |
| `FileTransfer.EarlyMessageIsMissed` | Network/FileManager.cpp:46-50 | with one message handled before the opening the batch is never delivered |
| `FileTransfer.DeliveredIsComplete` | Network/FileManager.cpp:117-123 | a delivered batch has one entry for every file: the messages of unreadable and unsaved files, and for the rest the paths of their exact contents |
| `FileTransfer.FilesArrive` | Network/NetworkSession.cpp:231-297 | whatever the order in which the messages of a batch arrive, the opening among them, and whatever other threads do in between: it is delivered at most once and complete, and once all messages are handled and the batch has no check, job or refused job, it has been delivered if and only if none was handled before the opening |
| `NetworkSession.NetworkSession.constructor` | Network/NetworkSession.cpp:25-53 | a session before its start, with the registered key it was given |
| `NetworkSession.NetworkSession.Start` | Network/NetworkSession.cpp:64-88 | from any condition, the session waits for a request with nothing posted, or is idle without a socket |
| `NetworkSession.NetworkSession.ResponseConnection` | Network/NetworkSession.cpp:299-336 | makes a new key and iv if it encrypts, reports the answer to the server and posts it to the client if there is a pool |
| `NetworkSession.NetworkSession.SetCondition` | Network/NetworkSession.cpp:134 | a session that expires posts a refusal, once |
| `NetworkSession.NetworkSession.ReceivedConnection` | Network/NetworkSession.cpp:136-166 | takes one request while waiting: confirms it if the registered key passes, else, also for a key that is no text, expires with two refusals posted; empty or unreadable data changes nothing, a missing key only the id |
| `NetworkSession.FirstMessageDecides` | Network/NetworkSession.cpp:136-166 | of any list of messages that a waiting session is sent the first that decides is the only one that counts: it is confirmed if and only if that is a request with its registered key, so that there is no second guess |
| `NetworkSession.NoTextIsRefused` | Network/NetworkSession.cpp:154-160 | a key that is no text expires the session with two refusals, like a wrong one |
| `NetworkSession.UndecidedLeavesAll` | Network/NetworkSession.cpp:136-152 | a message that does not decide changes nothing but the id, and that only if it could be read |
| `NetworkSession.NetworkSession.GuardData` | Network/NetworkSession.cpp:168-238 | a data message expires a session that is not confirmed |
| `NetworkSession.NetworkSession.CompressAnswer` | Network/DataHandler.cpp:641-660 | an answer gets past its compress job exactly if the session has not expired |
| `NetworkSession.NetworkSession.Stop` | Network/NetworkSession.cpp:90-98 | expires and drops every posted answer |
| `NetworkClient.NetworkClient.constructor` | Network/NetworkClient.cpp:25-40 | a client before its start |
| `NetworkClient.NetworkClient.Disconnected` | Network/NetworkClient.cpp:182-191 | forgets key and iv, and notifies |
| `NetworkClient.NetworkClient.SetCondition` | Network/NetworkClient.cpp:182-191 | notifies and forgets the keys exactly when it expires |
| `NetworkClient.NetworkClient.Start` | Network/NetworkClient.cpp:52-83 | waits with one request posted and the old keys in place, or is idle if the socket fails |
| `NetworkClient.NetworkClient.ReceivedConnection` | Network/NetworkClient.cpp:321-386 | takes one answer while waiting: keys and names of the session, Confirmed or Expired, and the notifications of both; empty or unreadable data changes nothing |
| `NetworkClient.FirstAnswerDecides` | Network/NetworkClient.cpp:193-207 | of any list of messages that a waiting client is sent the first that decides is the only one that counts: nothing changes before it and nothing after it |
| `NetworkClient.NetworkClient.GuardData` | Network/NetworkClient.cpp:388-447 | a data message expires a client that is neither confirmed nor expired |
| `NetworkClient.NetworkClient.Stop` | Network/NetworkClient.cpp:126-149 | nothing for a client that was not started; otherwise it expires by itself and either wakes the thread that waits or drops what was posted |
| `Handshake.StepKeepsInv` | Network/NetworkSession.cpp:136-166 | the invariant of both endpoints and of all messages on their way, under every step |
| `Handshake.KeyTestDecides` | Network/NetworkSession.cpp:150-165 | a waiting session confirms a request if and only if its key up to the first zero is the registered one, with one answer; any other request expires it and posts two refusals |
| `Handshake.DataNeedsConfirmation` | Network/NetworkSession.cpp:168-238 | a data message leaves a confirmed endpoint alone and expires one that is not: the session posts a refusal, the client forgets its keys |
| `Handshake.AnswerDecides` | Network/NetworkClient.cpp:335-385 | a waiting client is confirmed by a confirming answer, with the keys of that answer up to their zeros, and left expired without keys by a refusal |
| `Handshake.EndIsFinal` | Network/NetworkSession.cpp:154-238 | after a wrong key, a data message before the confirmation or a refusal, the endpoint is expired in every state of every run of the connection, whatever is still to arrive |
| `Handshake.StopIsSilent` | Network/NetworkSession.cpp:90-98 | a session that stopped, or a client that closed, puts nothing more on the wire in any run of the connection |
| `Handshake.HandshakeAgrees` | Network/NetworkClient.cpp:321-386 | in every run, reconnects included: a confirmed client passed this session's key test, and while both are confirmed their key, iv and mode are equal and undo each other |
| `Handshake.ServerIdIsClientId` | Network/NetworkClient.cpp:335 | the id a confirmed client keeps for its server is its own |
| `Handshake.RefusalsStayInside` | Network/DataHandler.cpp:641-646 | no answer that refuses ever gets past the compress job, and without a passed test no answer at all |
| `Handshake.ExpiredSessionIsQuiet` | Network/DataHandler.cpp:641-646 | from the moment a session has expired, no answer reaches the wire but those that were already framed, and none of them twice |
| `Handshake.SilentExactly` | Network/DataHandler.cpp:641-646 | an expired session puts nothing on the wire in any run if and only if no answer was framed |
| `Handshake.ExpiredSessionMaySpeak` | Network/DataHandler.cpp:653-659 | whenever the key test passes, a run in which the confirming answer is framed, the session expires and the answer leaves |
| `Handshake.GetsInExactly` | Network/NetworkSession.cpp:154-165 | a connection can be confirmed if and only if the registered keys agree up to the first zero and the client starts without usable keys |
| `Handshake.RestartNeedsExpiry` | Network/NetworkClient.cpp:52-83 | in every run, a confirmed client that starts again gets in if and only if the session it leaves did not encrypt and its registered key passes, and after an expiry if and only if the key passes, whatever the server's key and mode are by then |

## Left out

- Boost.Asio itself: sockets, acceptor, `io_context` and timing are byte sequences, registered reads and oracles.
- LZ4, AES and base64: functions with an inverse law; a block the codec refuses is covered, memory safety of LZ4 is not.
- `Combiner.Divide`: requires that the declared end does not wrap around, because the code then copies from beyond the vector.
- `Folder.Decompression`: requires the same of every length field in the archive.
- `Pipeline.Receive`: requires the same of both records of the message.
- `FileBatch.FileSendingJob.Working`: requires the same of the four records of its input.
- `Compressor.DecodeTurn`: requires that the fields of the block are there and fit the buffers, because the code copies them unchecked.
- `Compressor.Decompress`: requires the same of every block it meets.
- `DataHandler.DataHandler.DecompressMessage`: requires the same of its payload.
- `DataHandler.DataHandler.ResizeBuffer`: requires 8 bytes for the length read and no read pending into the old buffer, which the code would free under it.
- JSON text of connection messages: they are records.
- `NetworkClient.NetworkClient.ReceivedConnection`: answers that lack a field behind the id, which leave the client half changed when the handler throws; no session sends them.
- `Pipeline.EndToEnd`: says nothing about the order in which the callbacks run, which several workers can swap.
- What deciphering a message that was sent in clear yields: in the handshake such a message counts as lost.
- `DataHandler.DataHandler.Complete`: bytes of a read that fails part way are not modelled, because the handler ignores them.
- `ThreadPool.ThreadPool.RemoveWorkers`: models the call alone, not its race with running workers, and no null workers, which `push` refuses.
- `ThreadPool.ThreadWorker.Stop`: keeps whether the thread runs; its `run` loop, flags and condition variable are the worker steps of `PoolMachine`, because Dafny has no threads.
- `PoolMachine.StepKeepsShape`: the machine starts with all workers running; starting them, adding one to a running pool and a pool that expires under a worker are not modelled.
- A second `stop` between the release of the pool's mutex and `working_ = false` (ThreadPool/ThreadPool.cpp:253-256): it locks the queue again and returns early for want of a thread to join. In the machine these are one step.
- Freedom from deadlock: `stop` holds the pool's mutex while it joins, and a push can wait for that mutex in `notify_callback`.
- `Resync.FrameBehindNoise`: assumes a payload whose length fits the bytes left in the misread field; what follows longer ones, and noise with four 253s in a row, depends on the bytes behind it and is only covered by `Frames.ReaderRefinesParser`.
- `WireSafety.ReadUpToFailure`: of the bytes behind a frame cut inside its payload, `Resync.BehindPartial` says what becomes; behind one cut inside its start code, its length or its end code only `Frames.ReaderRefinesParser` does.
- `FileManager.FileManager.CheckCondition`: assumes a pool; `stop` sets it to null before the workers are joined (Network/NetworkSession.cpp:94-96), and a full batch checked after that would call through the null pointer.
- `FileManager.FileManager.CheckConditionCallback`: the case of a manager without callback, which session and client never leave so.
- `FileBatch.ReceivedFile`: a message without a mode field or with an index field of more than 8 bytes, on which the code reads or writes out of bounds; the per-file callback.
- The network server: session filtering and broadcasting would add only easy members.
- Logger, argument parser, database, folder watcher, system information, JSON helpers and samples: formatting, operating system or library calls.
- Job titles, saving jobs to disk and `uncompleted_jobs`: a job is its priority and its effect.
