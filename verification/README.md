# Verified model of the file transfer server and its resumable download client

This project models the parts of the repository where its behaviour is hardest to see from
one function alone, and proves what they promise.

* **The multi-threaded, resumable download** (`src/client/DownloadManager.cpp`) is a step
  machine. A state holds the parts, the usage flags, `partsLock`, `totalProgress`, the
  destination, the records of the `.dlinfo` file and, per thread, a program counter, its
  fields and its connection with the bytes in flight and the server session at the other
  end. A step is one action of one thread, of the server on that thread's connection, or a
  lost connection. Safety, conservation, progress, completion and resumption are theorems
  about all runs of any number of threads. `DownloadManager.dfy` and `DownloadThread.dfy`
  are the same code as classes with mutable fields; each method is proved to be a run of
  the machine, so the theorems are about that code too.
* **The server session and its epoll driver** (`src/server/Session.cpp`,
  `src/server/Server.cpp`, `src/server/Events.cpp`): the session is a class whose methods
  read packets and call sendfile with arbitrary results; its transfer is also a function of
  those results, over any number of `handle` calls, and refines the Send steps of the
  download machine. The workers, batches and one-shot registrations are a second step
  machine.
* **The wire layer** (`src/network/Socket.cpp`, `src/protocol/Protocol.cpp`,
  `src/util/ByteBuffer.cpp`, `src/util/rio.cpp`): chunked reads, frames, byte order, hex text.
* **The client's command session** (`src/client/Client.cpp`): what a typed line sends and what
  the answer does, up to the size a download is started with.
* **Two small algorithms**: the next power of two (`src/util/Int.cpp`) and `split`
  (`src/util/StringUtil.cpp`).

## Files

| file | what it holds |
|---|---|
| Bytes, Sums, Option | byte order, sums, values that may be missing |
| ByteBuffer, Socket, Protocol, Requests | the wire layer and the server's answer to a DOWNLOAD packet |
| Parts, RecordFile | the partition and the `.dlinfo` file |
| Download | state, steps and runs of the download machine |
| ReplyHeaders | reply headers read in pieces |
| DownloadSafety, DownloadTheorems | the invariant, its preservation, and what it means over runs |
| DownloadRecords | the record file keeps up with the download; what an interruption costs |
| DownloadProgress, DownloadMeasure, DownloadLiveness, DownloadFairness | failed scans, the measure, progress |
| DownloadDoom, DownloadHope | which parts a thread can still get to, hopeless states, and which steps create none |
| DownloadReach, DownloadEnding | reaching states; exactly when a download can still end |
| DownloadLosses | exactly which lost connections and refused requests are fatal |
| DownloadOutcome, DownloadFaults, DownloadHangs | completion and resumption; exactly which downloads can lose a part, spin or never end |
| DownloadManager, DownloadThread | the client code as classes, tied to the machine |
| Transfer, Session, Reactor | the server |
| Client | the command session of the client |
| Hex, Int, IntUtil, IntUtil64, StringUtil | utilities |

Many proofs begin with a `hide` statement: it keeps the bodies of definitions the proof does
not need away from the solver.

## Where the code does not do what it is for

* A lost connection can make a download return with a part missing, after which the
  `.dlinfo` file is removed as if it were complete: the release moves `startPart` past the
  unfinished part and the scan does not wrap. `DownloadFaults.ResumedReturnIsWholeIff` says
  that this is excluded exactly when nothing but the last part is missing at the start; for
  new downloads, exactly for files of at most one part (`DownloadFaults.ReturnIsWholeIff`).
  What does hold for all files: fault-free runs complete, and runs in which no part is given
  back unfinished do.
* A lost connection can make a download hang: a thread that finds everything taken keeps
  `partsLock` while it looks again, and the owner it waits for needs the lock to give its
  part back. `DownloadHangs.ResumedNeverSpinsIff` says that this is excluded exactly when all
  threads but the first start behind everything that is missing; for new downloads, exactly
  with one thread or nothing to download.
* A thread whose request is refused leaves `downloadPart` without letting go of its
  connection (lines 171-174) and connects only when it has none (line 145). So its next
  request goes over the connection that has refused one; that write raises SIGPIPE, on which
  `client.cpp:40` ends the whole process with status 0, the part missing and the `.dlinfo`
  file kept (`DownloadOutcome.CutIsSafe` says what is left). The machine has no step for it.
  After a refusal a thread can therefore only return, and only once the other threads have
  finished every part from its scan point on. `DownloadEnding.CanFinishIffNotDoomed` says
  from exactly which states all threads can still return, `DownloadEnding.CalmCanFinishIff`
  says it in terms of scan points, `DownloadLosses.DropDoomsIff` and
  `DownloadLosses.RefusalDoomsIff` say which lost connections and which refusals are fatal,
  and `DownloadHangs.ResumedNeverHangsIff` for which downloads none ever is; for new ones,
  exactly with nothing to download.
* `Socket::read` asks for min(limit, 256) bytes each time instead of the remainder, so it can
  take bytes that belong to what follows. `Sockets.ExactIff`, `Sockets.GreedyExactIff` and
  `Protocol.FramingRoundTrip` say exactly when it does not, and `Sockets.InsideIff` exactly
  when it also stays inside the buffer: for the server's 64 KiB buffer and a length chosen by
  the peer it need not. `ReplyHeaders.ChunkedHeader` says what it does to a download: too much
  read for the length of a reply makes the size comparison fail, which costs the connection;
  too much read for its body passes, loses the first bytes of the file data and has all that
  follows written too far to the front.
* A record file cut short while it is first written is accepted on resume, and then covers
  only some of the parts: `RecordFile.TornFileIff`.
* The part counter is a `uint32_t`: `Parts.CountFitsIff`. Downloads above that size, just
  short of 2^58 bytes, are outside the machine. The resume loop counts with an int, so that
  resuming is defined only up to half of that: `Parts.ResumableIff`.
* The product that gives a thread its start position is a `uint32_t`, too: from
  (threads - 1) * nPart = 2^32 on some threads start too far to the front, still inside the list:
  `Parts.EvenIff`, `Parts.StartIffNoWrap`, `Parts.StartInRange`.
* A command without a word makes the server look at the first of no words:
  `Sessions.CrashIff`.
* `slice` does not check that its end is not before its start: `ByteBuffers.SlicePieces`.
* The server's range check wraps for files of 2^63 bytes and more, which `off_t` rules out:
  `Requests.RangeCheckIff`.
* The next power of two is 0 outside the range in `IntUtil.Next32Pow2` and
  `IntUtil64.Next64Pow2`.
* Joining command arguments and splitting them again loses empty arguments and splits those
  with spaces: `StringUtil.JoinSplitIff`.

## Assumptions of the download machine

* The scan does not wrap and a thread that finds nothing spins while it holds `partsLock`,
  as in the code.
* The seek and the write on the shared `partFile` are one step.
* At least one thread is configured and all start; `joinAll` returns when all have returned.
* A connection that has failed stays failed. It may still swallow a request, which then gets
  no answer, or refuse it; which of the two is left to the network, however the connection was
  lost, so "can still end" means that there is a way for threads and network to go on. A
  failing connect, a failing local write or a second refused request ends the process, which
  is an interruption like any other.
* A request reaches the server whole, and a reply header is there as a whole when it is read,
  so that it is read exactly; file data arrives in arbitrary chunks.
  `ReplyHeaders.ChunkedHeader` says what happens otherwise.
* The source file does not change while it is downloaded, is readable by the server under
  its path, and answers to DOWNLOAD are BINARY packets; a `.dlinfo` file found belongs to
  this download.
* Sockets are nondeterministic, within what a flag says that never changes: a `prompt` socket
  gives full chunks, a `roomy` one takes every write whole, an `ended` one closes behind what is
  still to come; epoll_ctl does not fail on a `sound` listener; and a `steady` thread's network
  loses no connection and lets every read give something. Without the flag anything goes.
* The host is little-endian; word accesses are atomic; a destination longer than the source
  keeps its tail, since `fallocate` does not shorten files.

## Model

| member | source | states |
|---|---|---|
| DownloadOutcome.Completion | src/client/DownloadManager.cpp:118-158 | Completion for any number of threads: in every interleaving in which no part is given back unfinished, once all threads have returned no part misses anything, the destination is the source followed by what it held beyond the source, and `totalProgress` is the file size, although each scan covers only the parts from `startPart` on |
| DownloadOutcome.FreshCompletes | src/client/DownloadManager.cpp:15-86 | a new download without network faults can always go on to its end, and when all threads have returned the destination is the source |
| DownloadOutcome.HistoryIsSafe | src/client/DownloadManager.cpp:191-213 | after any history of interrupted attempts the records describe the same partition and every byte they claim is in the destination |
| DownloadOutcome.CutIsSafe | src/client/DownloadManager.cpp:202-213 | resume safety of one cut: whenever the process dies, in whatever state, the record file never claims a byte the surviving destination does not have (file write before `part->rest` before record write) |
| DownloadOutcome.ResumedIsSound | src/client/DownloadManager.cpp:29-44 | the state a resumed download starts from satisfies the safety invariant, the scan-point invariant and has no failed connection |
| DownloadOutcome.FrontRun | src/client/DownloadManager.cpp:118-158 | key invariant of completion, over runs: every part below the scan point of thread 0 is finished or owned |
| DownloadOutcome.AllDoneAtEnd | src/client/DownloadManager.cpp:136-141 | when nobody owns a part any more the scan-point invariant means that every part is finished |
| DownloadOutcome.FaultFreeIsClean | src/client/DownloadManager.cpp:151-154 | without network faults no part is ever given back unfinished |
| DownloadOutcome.ResumedCompletes | src/client/DownloadManager.cpp:29-44 | a new download interrupted any number of times at any steps, with any connections lost and any part of a write on disk, then resumed by any positive number of threads: without network faults it can always go on to its end, and any clean run of it that has ended leaves the whole source |
| DownloadFaults.GivesUp | src/client/DownloadManager.cpp:176-181 | a part whose connection is lost before the request comes back unchanged and the thread goes on behind it |
| DownloadFaults.Fetches | src/client/DownloadManager.cpp:118-158 | alone and without faults a thread downloads the first unfinished part from its scan point and nothing else |
| DownloadFaults.ResumedReturnIsWholeIff | src/client/DownloadManager.cpp:118-158 | for every set of records to resume from and any positive number of threads: "returning means complete, whatever connections are lost" holds exactly when nothing is missing at the start but perhaps of the last part |
| DownloadFaults.ReturnIsWholeIff | src/client/DownloadManager.cpp:118-158 | for a new download that is: exactly for files of at most one part |
| DownloadFaults.CanLosePart | src/client/DownloadManager.cpp:155-157 | the failing half: with a part missing that is not the last there is a run in which threads whose connections drop move `startPart` past it and all return without it |
| DownloadFaults.LastReturnsWhole | src/client/DownloadManager.cpp:121-141 | the holding half, over runs: with at most the last part missing every pass covers it, so a returned thread means that it is finished |
| DownloadHangs.ResumedNeverSpinsIff | src/client/DownloadManager.cpp:121-141 | for every set of records to resume from: no thread ever spins for good, whatever connections are lost, exactly when every thread but the first starts behind all that is missing |
| DownloadHangs.NeverSpinsIff | src/client/DownloadManager.cpp:121-141 | for a new download that is: exactly with a single thread or nothing to download |
| DownloadHangs.CanHang | src/client/DownloadManager.cpp:121-141 | the failing half: one thread spins with `partsLock` held on the part of another whose connection is lost and who needs the lock to give the part back |
| DownloadHangs.ResumedNeverHangsIff | src/client/DownloadManager.cpp:118-174 | for every set of records to resume from: whatever connections are lost and requests refused all threads can still return, exactly when nothing is missing, or a single part that is not the last and that only the first thread looks at |
| DownloadHangs.NeverHangsIff | src/client/DownloadManager.cpp:118-174 | for a new download that is: exactly with nothing to download |
| DownloadHangs.CanStarve | src/client/DownloadManager.cpp:155-174 | the failing half without a spin: one refused request leaves the first thread with a part it needs and cannot download, and no other thread looks at it |
| DownloadHangs.CanBeAbandoned | src/client/DownloadManager.cpp:171-174 | with the last part missing and any number of threads, all of them can come to keep a connection that refuses requests before it is downloaded |
| DownloadLosses.DropDoomsIff | src/client/DownloadManager.cpp:121-154 | in any reachable state that can still end, losing one connection makes ending impossible exactly when a thread already spins for the part of that connection and bytes of it are still to come, or when the part the loss costs its thread, the one it has or would take next, is needed by a thread with a refusing connection, no other thread can get to it and this one will not come round again |
| DownloadLosses.RefusalDoomsIff | src/client/DownloadManager.cpp:145-174 | in any reachable state that can still end, a refused request makes ending impossible exactly when some part at or behind the place where the refused thread goes on to look lacks bytes and no other thread can get to it |
| DownloadEnding.FinishingRun | src/client/DownloadManager.cpp:118-158 | from every state that is not hopeless a run that returns every thread is put together |
| DownloadEnding.CanFinishIffNotDoomed | src/client/DownloadManager.cpp:118-174 | a reachable state, lost and refusing connections included, has a continuation in which every thread returns exactly when no thread spins on `partsLock` for a part whose owner can no longer finish it, no thread has claimed or is bound to claim a part with a connection that has refused a request, and no thread with such a connection has yet to wait for a part that nobody can get to |
| DownloadEnding.CalmCanFinishIff | src/client/DownloadManager.cpp:118-174 | the same while nobody works or holds `partsLock`, in terms of scan points only: every unfinished part at or behind the scan point of a thread with a refusing connection has a helper, that is, a thread whose connection does not refuse and which either looks from there or before (behind one unfinished part more, if its connection is lost) or comes round because the last part is unfinished |
| DownloadEnding.WorksAlone | src/client/DownloadManager.cpp:118-158 | a thread whose connection does not refuse requests can work alone until it returns; then exactly those parts are unfinished that lacked bytes and were out of its reach, and no hopeless state has been created |
| DownloadEnding.Settle | src/client/DownloadManager.cpp:118-158 | from every state that is not hopeless one is reached, without anybody taking the lock, where all threads wait or have returned and that is not hopeless either |
| DownloadHope.ReachesKept | src/client/DownloadManager.cpp:118-216 | a part that some thread can get to stays in reach of that thread, or comes into reach of the one that moves, on every fault-free step until it is received, unless the lock is taken while others work |
| DownloadHope.NoNewDoom | src/client/DownloadManager.cpp:118-174 | no fault-free step creates a hopeless state, except taking the lock while others work or with a refusing connection |
| DownloadDoom.DoomIsForever | src/client/DownloadManager.cpp:118-174 | a hopeless state stays one, whatever happens: no continuation returns every thread |
| DownloadDoom.ReachesBefore | src/client/DownloadManager.cpp:118-174 | no step of any thread, fault or not, lets a thread get to a part that it could not get to before |
| DownloadDoom.LackingKept | src/client/DownloadManager.cpp:192-214 | what a part lacks it goes on lacking, until its owner takes it off a working connection |
| DownloadFairness.FairRunsEnd | src/client/DownloadManager.cpp:118-158 | progress, whole: no fault-free execution goes on for ever in which an owner that could always go on, itself or its server, eventually does; with NeverStuck this means that fair fault-free executions end with all threads returned |
| DownloadFairness.SpinHasWorker | src/client/DownloadManager.cpp:121-141 | at every turn of a spin the owner of a part that is waited for has a productive step that needs no lock |
| DownloadFairness.WorkPersists | src/client/DownloadManager.cpp:121-141 | a turn of a spin takes nobody else's step away |
| DownloadFairness.OnlySpins | src/client/DownloadManager.cpp:118-158 | an endless fault-free execution is from some step on nothing but one thread spinning |
| DownloadFairness.ExhaustedRunsEnd | src/client/DownloadManager.cpp:118-158 | a fault-free run that has made as many productive steps as the measure of its start has returned every thread |
| DownloadLiveness.HealthyRun | src/client/DownloadManager.cpp:176-201 | in fault-free runs no connection fails and parts are only given back finished |
| DownloadLiveness.NeverStuck | src/client/DownloadManager.cpp:118-158 | in a fault-free run, until every thread has returned, some step that lowers the measure is possible, even while a thread spins holding `partsLock` |
| DownloadLiveness.OwnerAction | src/client/DownloadManager.cpp:161-216 | an owner that neither waits for `partsLock` nor is about to send over a connection that has refused a request always has a measure-lowering step of its own, or of its server |
| DownloadLiveness.RefusedIsStuck | src/client/DownloadManager.cpp:145-177 | an owner about to send over a connection that has refused a request has no step: its next statement ends the process |
| DownloadMeasure.MeasureFalls | src/client/DownloadManager.cpp:118-216 | a measure over missing bytes, bytes in flight, claims and program counters falls on every step that is neither a fault nor a turn of a spin |
| DownloadMeasure.SpinIsFree | src/client/DownloadManager.cpp:121-141 | a turn of a spin does not raise the measure |
| DownloadMeasure.BoundedProgress | src/client/DownloadManager.cpp:118-216 | however threads, servers and network interleave, a fault-free run from a reachable state makes at most as many productive steps as the measure of that state |
| DownloadMeasure.ResumedProgress | src/client/DownloadManager.cpp:29-44 | a fault-free resumed download of n parts by c threads, u of them unfinished and m bytes missing, makes at most c * (2n + 5) + u * (2n + 14) + 7m productive steps |
| DownloadMeasure.FreshProgress | src/client/DownloadManager.cpp:45-71 | a fault-free new download of a file of m bytes in n parts by c threads makes at most c * (2n + 5) + n * (2n + 14) + 7m productive steps |
| DownloadProgress.FailedScanIsFinal | src/client/DownloadManager.cpp:121-141 | once a pass ends with nothing claimed that thread never claims again, in any continuation: it keeps the lock and leaves its loop only by returning |
| DownloadProgress.FlagsFrozen | src/client/DownloadManager.cpp:121-133 | while a thread holds `partsLock` no usage flag changes unless that thread claims |
| DownloadProgress.NewlyReturned | src/client/DownloadManager.cpp:121-141 | a thread returns only with every part from its scan point on finished |
| DownloadProgress.RefusalStays | src/client/DownloadManager.cpp:171-174 | a refusing connection is kept for good, and nothing is requested or downloaded over it |
| DownloadRecords.RecordsKeepUp | src/client/DownloadManager.cpp:209-213 | in every reachable state, lost connections included, the stored record of each part is that part as it is, or, exactly while its owner is between storing `rest` and saving the record, that part with as much more missing as the owner has received; the records add up to what is downloaded less what owners have not saved |
| DownloadRecords.AllSavedAtEnd | src/client/DownloadManager.cpp:74-86 | new or resumed, whatever is lost on the way: once all threads have returned the record file shows exactly what the parts are |
| DownloadRecords.CutCostsUnsaved | src/client/DownloadManager.cpp:209-213 | what an interruption at any step costs: the resumed `totalProgress` is the one before less what was counted and not yet recorded, and no part lacks more than it did and what its owner was about to record |
| DownloadTheorems.RunKeepsBytes | src/client/DownloadManager.cpp:191-213 | written-prefix safety over runs, lost connections included: `rest` never grows, ids, offsets and sizes stay, the first size - rest bytes of every part are the source bytes, nothing beyond the source is touched |
| DownloadTheorems.StepWritesOwnPart | src/client/DownloadManager.cpp:191-213 | no step writes outside the missing bytes of the part its thread owns, and what it writes is the source |
| DownloadTheorems.PartExclusion | src/client/DownloadManager.cpp:126-132 | in every reachable state `usingOffsets[i]` is set exactly while one thread is between claiming and releasing part i, and never two are |
| DownloadTheorems.ProgressConserved | src/client/DownloadManager.cpp:208-213 | conservation in every reachable state: `totalProgress` plus what is between lines 211 and 212 equals the sum of size - rest, so it never exceeds the file size and equals it when nothing is missing |
| DownloadTheorems.GotPlusRest | src/client/DownloadManager.cpp:37-44 | downloaded bytes plus missing bytes of a partition are the file size |
| DownloadTheorems.ResumeInv | src/client/DownloadManager.cpp:29-44 | resuming from records that claim only present bytes starts in the safety invariant, `totalProgress` included |
| DownloadTheorems.FreshInv | src/client/DownloadManager.cpp:45-71 | a new download starts in the safety invariant, whatever was in the destination |
| DownloadTheorems.WholeWhenDone | src/client/DownloadManager.cpp:161-216 | when no part misses anything the destination holds the source |
| DownloadTheorems.RequestAnswered | src/server/Session.cpp:107-144 | a DOWNLOAD request that waits at a server asks for a nonempty slice of an owned part, is accepted, and the server goes on to send exactly that slice |
| DownloadTheorems.RequestsAccepted | src/client/DownloadManager.cpp:163-188 | both of the above in every state of every run |
| DownloadTheorems.ReplyMatches | src/client/DownloadManager.cpp:182-188 | a reply whose header is read with full chunks carries the requested size; the mismatch branch is then never taken |
| ReplyHeaders.ChunkedHeader | src/protocol/Protocol.cpp:22-36 | the header of a reply read in pieces of any size, file data behind it: the size comparison of the client passes exactly when the read of the length took four bytes; then what is left to receive is the file data without its first b - 9 bytes, b being what the read of the body took, so it is the file data exactly when that took nine |
| ReplyHeaders.ChunkingCanSpoil | src/network/Socket.cpp:111-138 | some chunking takes too much for the length whatever follows, and some takes too much for the body exactly when file data follows |
| ReplyHeaders.OtherReply | src/client/DownloadManager.cpp:182-188 | a reply of another size would cost the connection and give the part back as it is |
| DownloadSafety.StepInv | src/client/DownloadManager.cpp:118-216 | every step of every thread, server and connection keeps the safety invariant (ownership, lock, prefix, records, conservation, contents of the connections) |
| DownloadSafety.RunInv | src/client/DownloadManager.cpp:118-216 | the safety invariant holds in every reachable state |
| DownloadSafety.ServeLink | src/server/Session.cpp:124-143 | a request frame on an idle connection decodes to itself, is accepted and leaves the header and the slice to send |
| DownloadSafety.ReplyLink | src/client/DownloadManager.cpp:176-188 | the header decodes to the requested size and leaves exactly the file bytes queued behind it |
| DownloadSafety.WriteInPlace | src/client/DownloadManager.cpp:191-207 | the write of a thread puts source bytes at the front of the missing range of its part and changes nothing else |
| DownloadSafety.StoreEffect | src/client/DownloadManager.cpp:209-211 | storing `rest` reduces exactly the own part by what was written, without wrap-around |
| DownloadSafety.SpliceAnywhere | src/util/File.cpp:31-40 | a seek and write anywhere: the bytes written, all others as before, zeros in a gap behind the end |
| Parts.PartitionCovers | src/client/DownloadManager.cpp:50-60 | ids are indices, sizes positive and at most PART_SIZE, offsets contiguous from 0 to the file size |
| Parts.ByteInOnePart | src/client/DownloadManager.cpp:50-60 | every byte of the file lies in exactly one part |
| Parts.Disjoint | src/client/DownloadManager.cpp:50-60 | parts do not overlap and stay inside the file |
| Parts.CountFitsIff | src/client/DownloadManager.cpp:52-59 | the `uint32_t` part counter holds the number of parts exactly up to (2^32 - 1) * PART_SIZE bytes |
| Parts.StartInRange | src/client/DownloadManager.cpp:67-71 | every thread starts inside the list of parts, `uint32_t` wrap-around of the product included, and thread 0 at part 0; Parts.EvenIff and Parts.RangesCover say where the others start |
| Parts.ResumableIff | src/client/DownloadManager.cpp:39-39 | the int index of the resume loop does not overflow exactly up to (2^31 - 1) * PART_SIZE bytes |
| Parts.StartIffNoWrap | src/client/DownloadManager.cpp:70-70 | start position i is the i-th multiple of nPart / threads, rounded down, exactly as long as i * nPart stays below 2^32; beyond, it is the rounded-down quotient of the wrapped product, which is too far to the front |
| Parts.EvenIff | src/client/DownloadManager.cpp:67-71 | all start positions are evenly spaced exactly when (threads - 1) * nPart is below 2^32 |
| Parts.RangeSize | src/client/DownloadManager.cpp:67-71 | then each range from one position to the next, or to the end, has nPart / threads parts, rounded down or up |
| Parts.StartsAscend | src/client/DownloadManager.cpp:67-71 | then start positions do not decrease |
| Parts.RangesCover | src/client/DownloadManager.cpp:67-71 | then every part lies in the range of exactly one thread |
| RecordFile.PartRoundTrip | src/client/DownloadManager.cpp:96-99 | a PartStatus read back from its 32 bytes is the one written |
| RecordFile.SaveLoadWhole | src/client/DownloadManager.cpp:33-44 | the resume loop gives back the records that were saved |
| RecordFile.SaveLoad | src/client/DownloadManager.cpp:33-44 | of a record file cut short exactly the whole records come back |
| RecordFile.TornFileIff | src/client/DownloadManager.cpp:62-63 | a resumed download covers the whole file exactly when the first write of the record file was complete |
| RecordFile.SaveOne | src/client/DownloadManager.cpp:96-99 | seeking to `id * sizeof(PartStatus)` and writing one structure replaces exactly that record |
| RecordFile.RecordFields | src/client/DownloadManager.h:14-21 | where a PartStatus keeps its four fields, little-endian, with padding behind the 32-bit id |
| RecordFile.OneSlot | src/client/DownloadManager.cpp:96-99 | writing one structure at `id * sizeof(PartStatus)` touches the 32 bytes of that slot and no others |
| DownloadManagers.DownloadManager.Split | src/client/DownloadManager.cpp:49-60 | the splitting loop yields the partition and the wrapped part count |
| DownloadManagers.ProgressIsDownloaded | src/client/DownloadManager.cpp:37-44 | `totalProgress` of the resume loop, in `uint64_t` arithmetic, is what the parts have |
| DownloadManagers.Reloaded | src/client/DownloadManager.cpp:33-44 | a saved partition is read back with its count and progress |
| DownloadManagers.DownloadManager.LoadParts | src/client/DownloadManager.cpp:34-44 | the resume loop yields the stored records and adds up what they have, as long as its int index does not overflow |
| DownloadManagers.DownloadManager.Prepare | src/client/DownloadManager.cpp:15-71 | new: the fields are those of the fresh starting state; resumed from fewer than 2^31 saved records: those of the resumed one, and from any other file of so few its whole records, with what they have as `totalProgress`; one start position a thread, each the wrapped quotient that Parts.StartIffNoWrap, Parts.EvenIff and Parts.RangesCover are about |
| DownloadThreads.DownloadThread.ReceiveReply | src/client/DownloadManager.cpp:176-191 | taking the header is the machine's reply step, mismatch and end of stream included |
| DownloadThreads.DownloadThread.ReadSome | src/client/DownloadManager.cpp:193-201 | a read is the machine's receive step, or ends in the hang-up step; on a network that does not fail it is a receive step that gives something |
| DownloadThreads.DownloadThread.Account | src/client/DownloadManager.cpp:202-213 | write, reduce `rest`, add to `totalProgress`, save the record: these machine steps in this order; `rest` falls by exactly what was received and the record file shows the part, since the object stays coupled to the machine through each of them |
| DownloadThreads.DownloadThread.UpdateDownloadStatus | src/client/DownloadManager.cpp:95-99 | the slot of the own part in the record file is afterwards exactly the structure of that part as it is now, every other byte of the file is as before |
| DownloadThreads.DownloadThread.ReleasePart | src/client/DownloadManager.cpp:151-157 | clearing the flag and moving `startPart` are the machine's release and advance steps |
| DownloadThreads.DownloadThread.Connect | src/client/DownloadManager.cpp:145-147 | a connection is made only when there is none; the machine's connect step |
| DownloadThreads.DownloadThread.StoreRest | src/client/DownloadManager.cpp:209-211 | local and shared `rest` fall together by what was received |
| DownloadThreads.DownloadThread.LookAt | src/client/DownloadManager.cpp:125-135 | one turn of the scan loop: the part is claimed exactly if it is unfinished and its flag is not set, otherwise no flag changes and `finish` stays true exactly for a finished part; with one thread an unfinished part is always free |
| DownloadThreads.DownloadThread.Pass | src/client/DownloadManager.cpp:123-136 | the scan loop claims the first unfinished part from `startPart` on that is free; without one `finish` says whether all from there on are finished, and everything unfinished there is taken |
| DownloadThreads.DownloadThread.FindPart | src/client/DownloadManager.cpp:120-142 | claims the first part from `startPart` on that is unfinished and free, returns exactly if all from there on are finished, and otherwise goes round while everything unfinished there is taken; a lone thread never goes round |
| DownloadThreads.DownloadThread.Transfer | src/client/DownloadManager.cpp:192-214 | the receive loop ends with the part about to be released; no part's `rest` grows |
| DownloadThreads.DownloadThread.RequestPart | src/client/DownloadManager.cpp:163-174 | the request is the machine's request step, or its refusal by a failed connection, which is kept; over a connection that has refused before it ends the process |
| DownloadThreads.DownloadThread.DownloadPart | src/client/DownloadManager.cpp:161-216 | a run of the machine from request to release, which leaves the part finished if nothing ever went wrong; the process ends in it exactly when the connection had refused before |
| DownloadThreads.DownloadThread.WorkOnPart | src/client/DownloadManager.cpp:143-157 | from claim to release, and one unfinished part fewer if nothing ever went wrong; or the end of the process, exactly with a connection that had refused before |
| DownloadThreads.DownloadThread.RunThread | src/client/DownloadManager.cpp:102-159 | everything run changes in the shared state is a run of the machine; it returns, ends the process with a connection that had refused before, goes round with the lock while everything unfinished from `startPart` on is taken, or has used up its rounds; a lone thread without faults returns after one round for every unfinished part and one look more |
| DownloadThreads.DownloadAlone | src/client/DownloadManager.cpp:15-86 | downloadWait with one thread, new or resumed: its outcome is the end of a run of the machine; on a network that does not fail the thread returns after one round for every unfinished part and one more, the destination is then the source and `totalProgress` its size; whenever the thread has returned the record file is the saved list of the parts as they are; if the process ends on a refused write, the state it leaves is one from which no run ends |
| Transfers.SliceTransfer | src/server/Session.cpp:191-231 | for any sendfile results over any number of handle calls the bytes sent after the header are a prefix of the slice; while WRITING they and `rest` add up to its size; READING is re-entered exactly when all is sent, END exactly when the last call met a closed or failing connection before |
| Transfers.OneCall | src/server/Session.cpp:191-231 | one call sends the next bytes of the slice and leaves the matching status and `rest` |
| Transfers.ChunkingIsInvisible | src/server/Session.cpp:198-231 | sessions that are READING again have sent the same bytes however the transfer was chunked |
| Transfers.CallIsSends | src/server/Session.cpp:198-231 | one call that does not break the connection is a series of Send steps of the download machine |
| Sessions.Session.SendResponse | src/server/Session.cpp:151-167 | a prefix of the frame is sent, all of it on success and whenever the socket has room |
| Sessions.Session.ProcessDownload | src/server/Session.cpp:107-144 | status, transfer and reply are those of AnswerDownload, which Requests.AnswerIs spells out for every packet and Sessions.FilePacket and Sessions.OtherPacket for the session |
| Sessions.Session.HandleWriting | src/server/Session.cpp:191-231 | is HandleWriting of the sendfile results, and ends READING if the socket has room; the branch for a missing fileProcess is dead |
| Sessions.Session.Handle | src/server/Session.cpp:15-52 | one handle, by status: READING takes and acts on a packet as HandlePacket does, WRITING is HandleWriting of the sendfile results and ends READING if the socket has room, END is final and changes nothing |
| Sessions.ConnectionListener.OnEvent | src/server/Server.cpp:28-51 | the session is handled exactly once as Session.Handle says; afterwards no buffer is attached and the registration, unless its renewal failed, waits for input if the session is READING and for output if it is WRITING; false is returned exactly at END |
| Sessions.Session.ProcessCommand | src/server/Session.cpp:61-105 | END exactly for quit, a first word that does not exist exactly for a command without a word, and the reply texts, which Sessions.CommandPacket and Sessions.CrashIff say in terms of what was typed; only what listing a directory says is left open |
| Sessions.Session.HandlePacket | src/server/Session.cpp:16-47 | takes at most one packet, the bytes taken last, and acts on it; without one the session ends exactly if the last kernel read met the end of the stream, and goes on reading otherwise; with full-chunk reads the packet is Decode, the end is met exactly when the peer has closed and less than a whole body is there, no slice assertion fails, and a crash is exactly a command without a word |
| Sessions.ServeIsReact | src/server/Session.cpp:107-144 | acting on a DOWNLOAD packet with the reply sent whole is the Serve step of the download machine |
| Sessions.FilePacket | src/server/Session.cpp:107-144 | what a session does with a request for a readable file: DOWNLOAD starts the transfer of exactly the range asked for, DOWNLOAD_INFO starts none; either is answered with the length, size 0 meaning the whole file; a range outside the file is refused |
| Sessions.OtherPacket | src/server/Session.cpp:24-47 | a packet without a structure is passed over, a missing file is refused, another packet type ends the session |
| Sessions.CommandPacket | src/server/Session.cpp:61-105 | by what was typed: quit and q are answered with Bye and end the session, nothing else does; the replies to shutdown, to an unknown command and to a list command without exactly one parameter |
| Sessions.CrashIff | src/server/Session.cpp:64-75 | the server looks at a first word that does not exist exactly for commands of nothing but spaces, the empty one included |
| Sessions.TextRoundTrip | src/server/Session.cpp:62-63 | what a client types without NUL is what the server reads |
| Sessions.DownloadServed | src/server/Session.cpp:16-52 | from the request to the last byte: over a connection that is not in the way a DOWNLOAD request for a range of a readable file is answered in two calls of handle by the header and exactly the bytes of that range, size 0 meaning the whole file, and the session reads on behind the request |
| Sessions.RequestTaken | src/server/Session.cpp:16-47 | one handle takes exactly the packet that is waiting, of at most 256 bytes or a multiple, and leaves what is behind it |
| Reactor.InitialInv | src/server/Server.cpp:53-82 | the server starts in the ownership invariant |
| Reactor.RunInv | src/server/Events.cpp:24-36 | the ownership invariant holds in every reachable state |
| Reactor.OneShotOwnership | src/server/Server.cpp:28-51 | with any number of workers and connections a listener is in exactly one place: armed, for input while its session is READING and for output while it is WRITING, once in one worker's batch, deleted once, or lost to a failed epoll_ctl; no worker uses a deleted one |
| Reactor.HoldersDiffer | src/server/Events.cpp:24-36 | two workers never hold the same connection |
| Reactor.BufferAttachment | src/server/Server.cpp:30-33 | a worker's buffer is attached exactly to the session it is in |
| Reactor.DeleteIsSafe | src/server/Events.cpp:31-34 | deletion happens only at END, unarmed, without a buffer, by the sole holder, never twice |
| Reactor.LostOnlyByFailure | src/server/Server.cpp:17-23 | a connection is lost only by a failed registration |
| Reactor.OthersKeepOff | src/server/Server.cpp:28-51 | while a worker is in a session no other worker changes it |
| Reactor.StepInv | src/server/Events.cpp:24-36 | every step of every worker keeps the ownership invariant |
| Reactor.Dispatch | src/server/Events.cpp:24-34 | the worker's loop body on a connection object handles its session once and is exactly the steps begin, handle, detach and re-arm, or finish, of the machine; the object is afterwards what the machine says |
| Reactor.EventRun | src/server/Server.cpp:28-51 | those steps can be taken in that order; the listener is afterwards armed for input if READING, for output if WRITING, or lost, and a finished one is about to be deleted |
| Reactor.WokenIff | src/server/Events.cpp:24-36 | a session in nobody's hands is always woken for what it waits for: while READING an idle worker can be given it exactly when its peer has sent something or closed, while WRITING exactly when its peer has room |
| Reactor.EndIsFinal | src/server/Server.cpp:45-48 | a finished session is never taken up again |
| Reactor.AcceptRun | src/server/Server.cpp:9-26 | the onEvent of the listening socket as steps: every pending connection joins, READING and armed for input or lost, nothing else changes, and the worker goes on with its batch |
| Reactor.AcceptAll | src/server/Server.cpp:9-26 | the accept loop on objects: one new session a pending connection, on its socket, and the listeners are what the machine says after those steps |
| Clients.Client.SendCommand | src/client/Client.cpp:26-71 | which packet a typed line is sent as, when nothing is sent, when the client leaves its loop, and which source file is remembered |
| Clients.Client.HandleResponse | src/client/Client.cpp:73-107 | text is printed, a length starts the download, file data and the end of the connection end the client; with full-chunk reads the packet handled is Decode |
| Clients.TypedDownload | src/client/Client.cpp:31-63 | typing download, a source and a destination sends a DOWNLOAD_INFO request for everything of that source |
| Clients.InfoExchange | src/client/Client.cpp:109-122 | from typed command to downloadWait: the server answers a typed download of a readable file with its length, and that is the size the download is started with |
| Clients.LeavingEnds | src/client/Client.cpp:64-70 | the commands that end the client are those that end its session at the server, and shutdown |
| Clients.RequestIff | src/client/Client.cpp:26-38 | nothing is sent exactly for a line without words and a download without exactly two parameters; all but downloads are sent as typed |
| Clients.AnswersShown | src/client/Client.cpp:84-98 | what the server says is what is printed; file data in the command session ends the client |
| Clients.NoCrash | src/client/Client.cpp:26-30 | no command that a client sends makes the server look for a word that is not there |
| Requests.AcceptedIff | src/server/Session.cpp:107-144 | for a readable file a request is accepted exactly when it is a nonempty range inside the file, or the whole file asked for as (0, 0) |
| Requests.RangeCheckIff | src/server/Session.cpp:129-132 | the wrapping 64-bit check is the mathematical one for every request exactly when the file is shorter than 2^63 bytes |
| Requests.RequestAccepted | src/server/Session.cpp:124-143 | a nonempty in-range request never means "whole file" and is echoed with its own size |
| Requests.RequestFields | src/client/DownloadManager.cpp:165-170 | offset, size and path survive the request structure |
| Requests.InfoRoundTrip | src/server/Session.cpp:134-137 | the size survives the DownloadInfoPacket |
| Requests.AnswerIs | src/server/Session.cpp:107-144 | the whole answer to every packet, DOWNLOAD or DOWNLOAD_INFO, without machine arithmetic: none for a packet too short for the structure, which refusal for which failed check, and otherwise a header with the length asked for, for size 0 the whole file, of the type that belongs to the request |
| Requests.CStringIff | src/server/Session.cpp:116-116 | a path is what stands before the first NUL, or everything if there is none |
| Requests.InfoIsLength | src/server/Session.cpp:124-143 | the size read from the reply to (0, 0) is the length of the file |
| Protocol.FramingRoundTrip | src/protocol/Protocol.cpp:22-36 | a stream of responses decodes to the same responses in order exactly when every body but the last has at most 256 bytes or a multiple of 256 |
| Protocol.DecodeFrame | src/protocol/Protocol.cpp:22-36 | one frame decodes to its message and leaves what is behind it alone exactly when its body length is such or nothing is behind it |
| Protocol.LengthReadIsFour | src/protocol/Protocol.cpp:24-25 | the read of the length takes exactly four bytes when they are there |
| Protocol.SendRequest | src/protocol/Protocol.cpp:4-20 | success exactly if the whole frame was handed over, which it is if the socket has room; otherwise a proper prefix of it was |
| Protocol.ReadPacket | src/server/Session.cpp:17-22 | the two reads of either side: bytes leave the stream in order into the front of the buffer; -1 exactly if the second read met the end of the stream; with full-chunk reads they are Decode, and the end is met exactly when the peer has closed and less than a whole body is there |
| Protocol.ReceiveResponse | src/protocol/Protocol.cpp:22-36 | the packet delivered is exactly the bytes taken for the body, whatever the chunking; with full-chunk reads it is Decode, and nothing is delivered exactly when there is no packet or the peer has closed inside its body |
| Sockets.ReadBound | src/network/Socket.cpp:111-138 | over-read bound for every pattern of short reads: fewer than limit + min(limit, 256) bytes are consumed |
| Sockets.BoundIsTight | src/network/Socket.cpp:111-138 | the bound is attained |
| Sockets.ExactIff | src/network/Socket.cpp:111-138 | a read is exact under every chunking exactly when one byte is asked for or nothing is queued behind the requested bytes |
| Sockets.GreedyExactIff | src/network/Socket.cpp:111-138 | with full chunks it is exact exactly for lengths up to 256, multiples of 256, or with nothing queued behind |
| Sockets.GreedyFits | src/network/Socket.cpp:111-138 | full-chunk reads never leave a buffer whose size is a multiple of 256 |
| Sockets.Socket.Read | src/network/Socket.cpp:111-138 | the buffer holds the consumed bytes in order; the call ends with a failing or would-block read short of the limit, at the end of the stream, or at or behind the limit; the result is -1 exactly at the end of the stream and else what was consumed |
| Sockets.Socket.Write | src/util/rio.cpp:4-18 | everything is handed over and n is returned, or 0 is returned and a proper prefix was handed over; a socket with room takes everything |
| Sockets.InsideIff | src/network/Socket.cpp:111-138 | no chunking writes past the buffer exactly when it has room for limit + min(limit, 256) - 1 bytes or for all there is |
| Sockets.WholeBuffer | src/network/Socket.cpp:111-118 | limit 0 or above the size of the buffer means the whole buffer |
| ByteBuffers.ByteBuffer.WriteUInt | src/util/ByteBuffer.cpp:126-130 | appends the four big-endian bytes |
| ByteBuffers.ByteBuffer.WriteUShort | src/util/ByteBuffer.cpp:121-124 | appends the two big-endian bytes |
| ByteBuffers.ByteBuffer.WriteULong | src/util/ByteBuffer.cpp:132-138 | appends the eight big-endian bytes |
| ByteBuffers.ByteBuffer.ReadUInt | src/util/ByteBuffer.cpp:149-156 | the shifted and or-ed bytes are the big-endian value |
| ByteBuffers.ByteBuffer.Plus | src/util/ByteBuffer.cpp:40-45 | a new buffer with both contents, the operands unchanged |
| ByteBuffers.ReadsBackUInt | src/util/ByteBuffer.cpp:149-156 | readUInt inverts write(UInt) at every position |
| ByteBuffers.SlicePieces | src/util/ByteBuffer.cpp:99-110 | slices around a cut join to the buffer, negative indices count from the end; which slices fail an assertion, and which pass them with an end before the start |
| Bytes.BigEndianRoundTrip | src/util/ByteBuffer.cpp:126-138 | big-endian bytes read back give the value |
| Bytes.FromBigEndianRange | src/util/ByteBuffer.cpp:149-156 | reading k bytes gives a value below 256^k whose bytes are those read |
| Bytes.BigEndianReversesLittle | src/util/ByteBuffer.cpp:121-138 | the big-endian bytes are the host bytes backwards |
| Bytes.LittleEndianRoundTrip | src/server/Session.cpp:112-112 | structures copied from memory read back |
| Hex.PrintParse | src/util/ByteBuffer.cpp:47-65 | hex text printed by `operator<<` and parsed by `hex` gives the buffer back, for every buffer |
| Hex.Print | src/util/ByteBuffer.cpp:47-54 | the printing loop yields two lower-case digits a byte, single spaces between |
| Hex.Parse | src/util/ByteBuffer.cpp:56-65 | the parsing loop yields the low bytes of the numbers up to the first failed extraction |
| Hex.ExtractByte | src/util/Byte.cpp:53-58 | a printed byte is extracted whole and nothing behind it is touched |
| Hex.HexTextAt | src/util/ByteBuffer.cpp:47-54 | printed text place by place: its length, the two digits of each byte, single spaces between |
| Hex.FirstDigit | src/util/ByteBuffer.cpp:56-65 | the value of a run of hex digits, most significant first |
| Hex.DigitValues | src/util/ByteBuffer.cpp:56-65 | digits are accepted in both cases |
| Hex.ExtractNumber | src/util/ByteBuffer.cpp:56-65 | one extraction: leading white space, an optional sign and 0x, digits; it fails past 32 bits, and a minus sign negates modulo 2^32 |
| Hex.ExtractNothing | src/util/ByteBuffer.cpp:56-65 | nothing is extracted where no number begins |
| Hex.ParseNumber | src/util/ByteBuffer.cpp:56-65 | of each number the low byte is kept; one past 32 bits ends the parsing |
| Hex.DigitsInOrder | src/util/Byte.cpp:53-58 | the digits printed, letters in lower case |
| Ints.UintToBytes | src/util/Int.cpp:20-25 | the array is the big-endian bytes of the value |
| Ints.ByteToUint | src/util/Int.cpp:27-33 | the value is the big-endian reading of the array |
| Ints.StoreLoad | src/util/Int.cpp:3-14 | an integer assigned and read back comes back modulo its width |
| Ints.LowBytes | src/util/Int.cpp:20-33 | writing k bytes of any integer and reading them gives it modulo 256^k |
| IntUtil.Next32Pow2 | src/util/Int.cpp:67-76 | the least power of two not below v exactly for 1 <= v <= 2^31, 0 otherwise |
| IntUtil.DoublingSearch | src/util/Int.cpp:67-76 | reference: doubling from 1 until v is reached finds the least power of two |
| IntUtil.LeastPow2Unique | src/util/Int.cpp:67-76 | so the shift-or chain and the doubling search agree |
| IntUtil64.Next64Pow2 | src/util/Int.cpp:78-88 | the least power of two not below v exactly for 1 <= v <= 2^63, 0 otherwise |
| IntUtil64.DoublingSearch | src/util/Int.cpp:78-88 | reference: doubling from 1 until v is reached finds the least power of two |
| IntUtil64.LeastPow2Unique | src/util/Int.cpp:78-88 | so the 64-bit chain and the doubling search agree |
| StringUtil.Split | src/util/StringUtil.cpp:6-19 | the loop returns Words |
| StringUtil.FindFirstOf | src/util/StringUtil.cpp:10-10 | the position ends the longest delimiter-free stretch |
| StringUtil.WordsIff | src/util/StringUtil.cpp:6-19 | a list is what split returns exactly when the string is those nonempty delimiter-free words separated by delimiters: the maximal runs, in order |
| StringUtil.RunCommand | src/client/Client.cpp:124-131 | the joining loop puts single spaces between the arguments |
| StringUtil.JoinSplitIff | src/client/Client.cpp:26-27 | splitting the joined arguments gives them back exactly when each is nonempty and free of spaces |
| StringUtil.NoWords | src/util/StringUtil.cpp:6-19 | there is no word exactly in a string of nothing but delimiters |

## Left out

- Downloads of more than (2^32 - 1) * PART_SIZE bytes: the vector of flags then no longer matches the list of parts, and the machine does not start.
- Sessions.Session.ProcessCommand: what listing a directory with `ls` says is some text, and shutting the server down has no effect here; both are operating-system behaviour.
- Clients.Client.HandleResponse: what is printed besides the text of an answer, and the loop that reads lines, are not modelled; a length of less than eight bytes, which the code reads beyond its end, is an outcome of its own.
- Removing the `.dlinfo` file after the threads have returned (`src/client/DownloadManager.cpp:79-84`): DownloadRecords.AllSavedAtEnd says what it holds then.
- Sockets.Socket.Read: bytes that an over-read writes behind the end of the receive buffer are counted but not stored, since memory past a vector is not part of the model; Sockets.InsideIff says when there are none.
- DownloadThreads.DownloadThread.RunThread: the objects model one thread while the others pause between its statements; interleavings are the step machine's. The number of rounds is a parameter, since with faults the loop need not end; a lone thread without faults is shown to need no more than there are unfinished parts, and one.
- DownloadManagers.DownloadManager.Prepare: resuming from 2^31 records or more overflows the loop's int index, which is not defined.
- Ints.UintToBytes: one method stands for the 16-bit and the 32-bit loops, which are the same.
- Hex.Parse: extraction follows the usual library behaviour for `std::hex` on an unsigned int; locale grouping is not modelled.
- Sockets, files, epoll, sendfile, threads, logging and clocks are nondeterministic steps: short counts, would-block, end of stream, errors.
- `validatePath` and the reply to unreadable files: a path either names a readable file or does not exist.
- Short reads of a request or of a reply header inside the download machine; the wire layer and ReplyHeaders treat them on their own.
- Progress output and speed in doubles (`src/client/DownloadManager.cpp:88-94`), option parsing and the interactive loop of the client.
- `raw_socket.cpp`, `StringUtil::endsWith`, the bit accessors of `src/util/Byte.cpp`: field reads and single expressions.
- Server shutdown, signals and `src/server/ThreadPool.hpp` beyond waiting for threads.
- Hardware data races on `part->rest` and stdio buffering: word accesses are atomic and a seek sets the descriptor's position.
