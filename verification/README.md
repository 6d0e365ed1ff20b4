# Camera stream library: a verified model

The application receives camera frames from an RTOS core over an inter-processor channel (IPCU), records them,
serves them over RTSP and saves JPEG pictures. This project models the parts of it whose state is hardest to follow,
and proves what they promise over all inputs, all runs and all interleavings.
`dafny verify dfyconfig.toml` checks everything.

## The stream buffer pool

In asynchronous mode 128 heap nodes go round between a free pool (last in, first out), a receive queue (first in,
first out) and a release list with a counter per node. The receiver callback, the stream thread, any number of
releasing threads and the closing thread share them under five mutexes and two condition variables.

- `NodeList.dfy` and `StreamQueue.dfy` are the pointer level: linked nodes whose `next` and `prev` are updated in
  place. Every method that finds the lists in order is proved equal to a function on sequences in `QueueSpec.dfy`.
- `StreamMessage.dfy` is the layout of a message in bytes, what a callback sees of it, and the release that is sent for it.
- `Protocol*.dfy` is the transition system. A critical section of a list mutex is one step; taking a lock is a step of
  its own; the two outer mutexes are held from step to step. `ProtocolCalls.dfy` shows that a call that nobody interrupts
  does what the pointer level does. `ProtocolInvariant.dfy` states one invariant, and `ProtocolSafety.dfy` collects the
  proofs that each step keeps it. `ProtocolTheorems.dfy`, `ProtocolLastCall.dfy`, `ProtocolProgress.dfy` and
  `ProtocolClose.dfy` draw the conclusions.
- `ProtocolMessages.dfy`, `ProtocolCounts.dfy` and `ProtocolReturns.dfy` follow what comes in from outside: each message
  that arrives (`EveryMessageAccounted`, `CallbacksSee`), each count that a client sets (`CountSet`), and each release
  call (`EveryCallCounted`, `ReleasedAfterN`). `ProtocolLocks.dfy` says which mutex guards what.

The environment may do anything at any time, within one rule for clients: a client releases only what a callback
handed it, sets the count (to at least 1) before any release, and makes at most that many releases. The library does
not check this. `ProtocolLoose.dfy` drops the rule: whatever clients release, conservation still holds
(`LooseConservation`), up to the first removal of a node that is not on the release list. What calls too many do:

- Made one after another they find nothing and change nothing (`QueueSpec.ExtraCallsDoNothing`), unless the node serves
  another message by then: they count for that one.
- A call is counted for the message that the node serves at that moment, and if nothing is left of its count it goes on
  to a sending. That message's release is sent by it if the sending comes before the node is pushed back to the pool, and
  never after that; later nothing is sent, or the release of the message the node has been filled with since
  (`ProtocolSendings.SentAgainIff`).
- When two threads close one node, the second removal finds it off the list, if it has not been listed again
  (`UnlistedIff`). With the node back at the head of the pool, the release list then becomes the rest of the pool, and the
  pool one node linked to itself (`StreamQueue.RemoveCommandAgain`).

`ProtocolRuns.dfy` has runs from the initial state: a release sent twice, the removal of an unlisted node, and a late call
that releases the next message.

Three more things the code does may surprise, and are modelled as written. A release wait that runs out of time fails even if
the release list has become empty by then, and recycles nothing (`WaitOutcome`). The forced removal after a wait that
succeeds (`src/sample_library.c:674`) always finds an empty list (`DrainedMeansDone`). A message with an unknown magic or
sub-command that is accepted is put on the release list without any callback, so nobody is told to release it, and from
then on the wait can only time out (`UndeliverableBlocksDrain`).

## JPEG sections and the splice writer

`JpegFormat.dfy` states the parser and printer of JPEG sections as functions, `JpegData.dfy` has the loops of the library
proved against them. `JpegRoundTrip.dfy` proves that they undo each other on well-formed data, `JpegSplice.dfy` that the fast
writer of EXIF pictures puts its segments where parsing, inserting and printing would. An EXIF codec is a pair of
functions; where a result needs them to be inverse, that is a precondition on the data at hand. `JpegDamage.dfy` is about
damaged streams. Three findings: without XMP text the writer leaves a length field of 0, behind which the parser finds
nothing more (`EmptyXmpLosesImage`, `SplicedKeepsImageIff`); of a stream without EOI, image data whose last byte but one
is FF is cut (`TruncatedScan`); and a section whose EXIF data could not be read is printed so that what follows is lost
(`UnreadExifPrinted`).

## SEI messages, the frame buffer, recording, GPS, resolutions

- `Sei.dfy`, `SeiConformance.dfy`, `AnnexB.dfy`: the user data message before each frame, against the decoder of section
  7.3.1, the rules of section 7.4.1 and the byte stream format of section B.1 of ITU-T H.264. Findings: a payload ending in an
  odd number of zeros loses its last byte (`PayloadReadIff`), and section 7.4.1 allows neither that nor the 03 that is
  also put before bytes above 3 (`MessageConformsIff`).
- `FramedSource.dfy`: the one-frame buffer between receiver and RTSP server. Finding: the frame alone is compared with
  the size of the buffer, and with its message it can end behind it (`MessageInsideIff`, `SmallestOverrun`).
- `Recorder.dfy`: the commands, the consumer list and the recording file. Finding: the result of `start_record` is not
  looked at, and a failed start leaves the recorder in the consumer list; all is well if and only if none fails
  (`AsPlannedIff`).
- `Gps.dfy`: the ring of samples against the whole history. `GpsMessage.dfy`: from the sample found to the bytes of its
  message, with the angles as IEEE 754 binary32 numbers. Finding: a frame later than all samples, while the receiver is
  silent, gets a message that section 7.4.1 does not allow (`SilentMessageFails`).
- `Resolution.dfy`: the size nearest to the one asked for.

## Model

| member | source | states |
|---|---|---|
| NodeLists.NodeList.PushFront | src/sample_library.c:200-226 | the pool push zeroes the node and puts it first; `next` and `prev` stay mutually inverse along the list, and the fields of other nodes are untouched; a node that is the head already is linked to itself |
| NodeLists.NodeList.PopFront | src/sample_library.c:228-258 | the first node, if any, is taken off and unlinked; the others keep their order and fields |
| NodeLists.NodeList.PushBack | src/sample_library.c:260-288 | the walk to the tail ends, and the node is appended |
| NodeLists.NodeList.Remove | src/sample_library.c:384-416 | exactly the given member is unlinked, wherever it stands, and the order of the rest is kept; any other node is unlinked from where it is, and with none before it there, the one behind it becomes the head of this list |
| NodeLists.NodeList.Search | src/sample_library.c:418-436 | a node with that command address is found if and only if there is one on the list |
| StreamQueues.StreamQueue.PushPool | src/sample_library.c:200-226 | refines the pool of sequences; the other two lists and all other nodes stay |
| StreamQueues.StreamQueue.PopPool | src/sample_library.c:228-258 | null exactly on an empty pool, else the node pushed last |
| StreamQueues.StreamQueue.PushRecv | src/sample_library.c:260-288 | appends to the receive queue and nothing else |
| StreamQueues.StreamQueue.PopRecv | src/sample_library.c:290-320 | null exactly on an empty queue, else the node pushed first |
| StreamQueues.StreamQueue.PushRelease | src/sample_library.c:322-350 | appends to the release list and nothing else |
| StreamQueues.StreamQueue.PopRelease | src/sample_library.c:352-382 | null exactly on an empty list, else its first node |
| StreamQueues.StreamQueue.RemoveRelease | src/sample_library.c:384-416 | a member is removed from the release list alone |
| StreamQueues.StreamQueue.RemoveReleaseAgain | src/sample_library.c:384-416 | removing the head of the pool makes the rest of the pool the release list, and no node listed before is found on it |
| StreamQueues.StreamQueue.RemoveCommandAgain | src/sample_library.c:589-598 | a second removal and recycling of a node at the head of the pool: the release list is the rest of the pool, the pool one node linked to itself |
| StreamQueues.StreamQueue.Initialize | src/sample_library.c:438-469 | refused unless all three lists are empty; else every new node is zeroed and in the pool |
| StreamQueues.StreamQueue.Finalize | src/sample_library.c:471-493 | refused while anything is queued or listed; else exactly the pool is freed |
| StreamQueues.StreamQueue.EnqueueRecv | src/sample_library.c:495-530 | too long, stopped and empty pool are refused, in that order, and change nothing; else the first node of the pool is at the end of the queue, with the message and its length in it |
| StreamQueues.StreamQueue.Store | src/sample_library.c:555-563 | the node is listed last with count 1 |
| StreamQueues.StreamQueue.CheckCounter | src/sample_library.c:565-587 | -1 and nothing else off the list; else the counter goes down by one and what is left, or 0, is returned |
| StreamQueues.StreamQueue.SetReleaseCount | src/sample_library.c:640-660 | -1 off the list, else 0, and the counter is the count given |
| StreamQueues.StreamQueue.RemoveCommand | src/sample_library.c:589-598 | the node moves from the release list to the head of the pool, zeroed; no other node changes |
| StreamQueues.StreamQueue.ForceRemove | src/sample_library.c:600-616 | every listed node goes to the pool |
| ProtocolCalls.RecycleAllReturns | src/sample_library.c:600-616 | the forced removal leaves an empty release list, a pool with exactly the nodes of both, each zeroed, and the queue as it was; on an empty list it does nothing |
| QueueSpec.WithoutAt | src/sample_library.c:384-416 | removing a member of a list without duplicates cuts out one position |
| QueueSpec.WithoutMember | src/sample_library.c:384-416 | removal of a member removes it and nothing else |
| QueueSpec.ReleaseManyReturns | src/sample_library.c:1107-1119 | calls one after another return n-1, n-2, … 1, and -1 after the n-th; the n-th returns 0 and sends if the magic is valid, and returns -1 and sends nothing if not; till then the pool is unchanged, from then on the node is at its head, zeroed; a count below 1 counts as 1 |
| QueueSpec.ExtraCallsDoNothing | src/sample_library.c:1107-1119 | one after another, exactly one release is sent if and only if n or more calls are made and the magic is valid; calls beyond n change nothing while the node is not used again |
| QueueSpec.SetCountEffect | src/sample_library.c:640-660 | the counter of a listed node becomes the count given and nothing else changes, -1 and no change for any other; m calls after that return n-1, n-2, … for that n, and send exactly if m is at least n |
| QueueSpec.RecycleEffect | src/sample_library.c:589-598 | a listed node is cut out of the list, in place, and is at the head of the pool, zeroed; the queue and all other nodes stay |
| ProtocolLoose.LooseRunInv | src/sample_library.c:200-679 | whatever clients release, the lists stay lists, every node is at its one place, and a node is zeroed from its push to the pool until it is filled again - in every run up to a removal of a node that is not listed |
| ProtocolLoose.LooseConservation | src/sample_library.c:495-616 | conservation in all those runs |
| ProtocolSendings.RunIsLoose | src/sample_library.c:565-598 | clients that keep the rule never bring such a removal about |
| ProtocolExtraCalls.ListedCalls | src/sample_library.c:565-587 | with any clients releasing what they like, in any order, up to a removal of a node that is not listed: while a node stays listed with its count n unset, m counted calls leave n - m, and each one from the n-th on goes on to a sending |
| ProtocolExtraCalls.ExtraCallOutcome | src/sample_library.c:1107-1119 | one call more after all n are counted is counted for the same message, and goes on to a sending, if and only if the node has not been taken off the list yet; later it finds nothing, or counts for the message that the node serves by then |
| ProtocolSendings.SentAgainIff | src/sample_library.c:1107-1119 | what a sending sends, in any run: the release of the message its call was counted for as long as the node has not been pushed to the pool since, then nothing while the node is zeroed, then the release of the message it has been filled with; always only with a valid magic |
| ProtocolSendings.UnlistedIff | src/sample_library.c:384-416 | a thread closing a node finds it off the list if and only if another thread has taken it off while both were closing it, and it has not been listed again since |
| ProtocolSendings.CloserCounted | src/sample_library.c:1107-1119 | a thread closes a node only after counting a call at which nothing was left |
| ProtocolSendings.DamageNeedsTwoCalls | src/sample_library.c:384-416 | behind every removal of a node that is not listed stand two such calls, both counted before the node was taken off |
| ProtocolExtraCalls.OneCallTooMany | src/sample_library.c:1107-1119 | n + 1 calls, the last two counted and sent before the removal: two releases of one message |
| ProtocolExtraCalls.NextMessageReleased | src/sample_library.c:1107-1119 | a call too many for a message whose node serves the next one sends the release of that next one, if its magic is valid and one call was left for it |
| ProtocolRuns.NextReleasedRun | src/sample_library.c:1107-1119 | a run from the initial state in which this happens |
| ProtocolRuns.ReleasedTwice | src/sample_library.c:565-598 | a run from the initial state with two releases of one message: count 1, two clients with one call each |
| ProtocolRuns.DamageReached | src/sample_library.c:589-598 | that run continued: the next step removes a node that is not on the list but at the head of the pool |
| ProtocolCalls.InitializePool | src/sample_library.c:438-469 | initialising gives the pool that the protocol starts from |
| ProtocolCalls.EnqueueAlone | src/sample_library.c:495-530 | the steps of an undisturbed enqueue do what the pointer level does, with the same outcome in each case |
| ProtocolCalls.CheckCounterAlone | src/sample_library.c:565-587 | the counting step does what the pointer level does, and goes on to send exactly when it returns 0 |
| ProtocolCalls.SetCountAlone | src/sample_library.c:640-660 | so does the step that sets a count: the counter of a listed node is the count of the call |
| ProtocolCalls.RecycleAlone | src/sample_library.c:589-598 | so do unlinking and pushing: the node ends up at the head of the pool, zeroed |
| ProtocolCalls.ReleaseCallAlone | src/sample_library.c:1107-1119 | so does a whole release call, and it sends the release of that node's message exactly when the pointer level does |
| ProtocolCalls.ForceRemoveTurn | src/sample_library.c:606-612 | so does each turn of the forced removal, until the list is empty |
| StreamMessage.ReleaseAfterDelivery | src/sample_library.c:148-197 | the release of a delivered message has the fields of the message as received; that of a meta message has the translated address |
| StreamMessage.ReleaseKeptIff | src/sample_library.c:148-197 | delivery changes the release if and only if it is that of a meta message whose address the translation changes |
| StreamMessage.DeliverableConverted | src/sample_library.c:99-146 | translating the address in place changes neither the magic nor whether there is a callback |
| StreamMessage.DeliverableBytes | src/sample_library.c:99-146 | there is a callback exactly for the bytes EE EE 99 99 at the start and one of the six sub-commands at byte 12 |
| StreamMessage.OnlyAddressConverted | src/sample_library.c:85 | for every kind of message the word at byte 40 is translated, and no other byte is changed |
| StreamMessage.StructDelivered | include/cif_stream.h:22-57 | a struct laid out in memory is handed over with its address translated, and released with its own fields |
| ProtocolInvariant.InitInv | src/sample_library.c:438-469 | the invariant holds of the initialised pool |
| ProtocolSafety.StepKeeps | src/sample_library.c:495-679 | each step of each thread keeps the invariant |
| ProtocolSafety.ActionKeeps | src/sample_library.c:905-930 | so do taking a lock, arriving messages, client calls, closing, spurious wakeups and timeouts |
| ProtocolSafety.RunInv | src/sample_library.c:495-679 | the invariant holds in every state of every run, through shutdown |
| ProtocolTheorems.Conservation | src/sample_library.c:495-616 | in every state of every run each of the 128 nodes is in exactly one of pool, queue, release list, one thread's hands, or freed |
| ProtocolTheorems.RefusedExactly | src/sample_library.c:495-530 | whatever other threads do meanwhile, an arriving message is refused at its first decision exactly when it is too long or the stop has come, and at its pop exactly when the pool is empty, when it fits and the stop has still not come; the pool is empty exactly when all 128 nodes are elsewhere |
| ProtocolTheorems.FirstInFirstOut | src/sample_library.c:532-553 | callbacks have seen the deliverable ones of a prefix of the accepted messages, in order and each once; the rest is queued in order, but for one in the stream thread's hands |
| ProtocolMessages.CallbacksSee | src/sample_library.c:99-146 | in every run the c-th callback saw the c-th deliverable message accepted: its bytes, zeros behind them, and at byte 40 the translated address |
| ProtocolMessages.EveryMessageAccounted | src/sample_library.c:905-930 | every message that has arrived, as often as it has arrived, is accepted, refused or in the hands of one receiving thread |
| ProtocolTheorems.ReleasedOnce | src/sample_library.c:565-598 | counted calls return n-1, n-2, … ; at most one release is sent, only when the count is used up, with the fields of the message; the node is recycled only after it |
| ProtocolTheorems.RefusedReleased | src/sample_library.c:905-930 | a refused message with valid magic is released exactly once, one without never |
| ProtocolTheorems.OnlyDueReleases | src/sample_library.c:148-197 | nothing else is ever sent |
| ProtocolTheorems.CallResult | src/sample_library.c:1107-1119 | whatever happens to other nodes, a counted call returns what is left, sends nothing itself, and goes on to send exactly when it is the n-th |
| ProtocolCounts.CountSet | src/sample_library.c:640-660 | after a client has called for the count n, until a count is set anew, the counted calls have returned n-1, n-2, …, n at most, and nothing is sent before the n-th; till the call is through, none is counted |
| ProtocolCounts.CountDefault | src/sample_library.c:555-563 | without such a call the same holds for 1 |
| ProtocolCounts.CountedCall | src/sample_library.c:565-587 | after the call for n the next call counted returns n less those counted, and goes on to send if it is the n-th, and only then |
| ProtocolReturns.EveryCallCounted | src/sample_library.c:1107-1119 | every release call that clients have made for a message is counted for it, once, or on its way to be |
| ProtocolReturns.ReleasedAfterN | src/sample_library.c:1107-1127 | after a call for the count n and n release calls that have returned, the release has been sent exactly once and the node recycled |
| ProtocolReturns.ReleasedAfterOne | src/sample_library.c:1107-1119 | without a call for a count one release call does |
| ProtocolLastCall.RunLastCalls | src/sample_library.c:1107-1119 | whenever a count has run out and the node is still listed, some thread is in the middle of its last call |
| ProtocolLastCall.LastCallReleases | src/sample_library.c:1107-1119 | once n calls are counted and none of them is under way, the release has been sent exactly once and the node recycled |
| ProtocolLastCall.OneCloser | src/sample_library.c:1107-1119 | two threads never carry out the last call for the same node |
| ProtocolProgress.WaitsAreShort | src/sample_library.c:495-679 | whoever holds a lock that another thread waits for is in no callback, wait or join, and can step, or can take a list lock, or waits for one whose holder can step |
| ProtocolProgress.TouchesLiveNodes | src/sample_library.c:200-679 | the nodes that the next step of any thread reads or writes - its own and those of the lists it walks or links - are allocated ones, none of them freed |
| ProtocolLocks.UntouchedKept | src/sample_library.c:200-679 | and no other node is changed or moved by the step |
| ProtocolLocks.WritesAreGuarded | src/sample_library.c:61-71 | in every run each list, the counters of listed nodes, the acceptance of messages, the stop and the sending are written only by a thread that has their mutex, which no other thread has then |
| ProtocolProgress.ReadySteps | src/sample_library.c:495-679 | a thread that is not at rest and has its lock can take its step |
| ProtocolProgress.NoDeadlock | src/sample_library.c:200-679 | whenever some thread is not at rest, some thread can move |
| ProtocolProgress.NoLostWakeup | src/sample_library.c:532-553 | with the lock free, an unsignalled stream thread waits only on an empty queue before the stop; in the drain, only on a non-empty release list |
| ProtocolProgress.JoinMakesProgress | src/sample_library.c:753-770 | while the closing thread waits for the stream thread, something can move or the timeout can |
| ProtocolHistory.StopAccepts | src/sample_library.c:507-510 | no action after the stop accepts a message |
| ProtocolHistory.RunGrows | src/sample_library.c:495-679 | what was accepted, delivered, refused or sent never changes later; the stop stays |
| ProtocolProgress.StopIsFinal | src/sample_library.c:753-770 | from the stop on no message is accepted; once the stream thread has left its loop it stays out, and the queue stays empty |
| ProtocolProgress.DrainedMeansDone | src/sample_library.c:662-679 | if the release wait returns 0, every node is back and every accepted message has been released and recycled |
| ProtocolProgress.CloseFreesAll | src/sample_library.c:790-794 | then finalising frees exactly the 128 nodes allocated, each once |
| ProtocolClose.CloseOutcome | src/sample_library.c:471-493 | any close, also after a wait that has run out of time, frees if and only if it has found the release list empty; then nothing is queued or listed, and every node is freed, in a thread's hands, or pushed to the pool by such a thread since |
| ProtocolClose.AllFreed | src/sample_library.c:471-493 | when the last free node is freed, the nodes not freed are exactly those in threads' hands |
| ProtocolProgress.WaitReturnsIff | src/sample_library.c:618-638 | at each test of the list the wait ends with 0 if and only if every accepted message has been called back, released and recycled |
| ProtocolClose.WaitOutcome | src/sample_library.c:618-638 | the whole wait returns 0 if and only if the time has not run out before, and then all is recycled; after a timeout it fails even on an empty list |
| ProtocolProgress.UndeliverableBlocksDrain | src/sample_library.c:99-146 | a message accepted with an unknown magic or sub-command is never called back, released or recycled, and the wait never returns 0 from then on |
| ProtocolRuns.UnknownStays | src/sample_library.c:99-146 | such a message, and a run from the initial state that leaves it on the release list |
| JpegLibrary.JpegData.LoadData | src/jpeg-data.c:189-286 | for any input starting with 0xFF the loop ends, reads in range, `size - o` never wraps, and the result is that of the parser function, also where the length field wraps |
| JpegLibrary.JpegData.SaveData | src/jpeg-data.c:117-176 | prints section by section what the printer function prints |
| JpegLibrary.JpegData.GetSection | src/jpeg-data.c:453-465 | the first section with the marker |
| JpegLibrary.JpegData.GetExifData | src/jpeg-data.c:467-482 | the EXIF of the first APP1 section, if any |
| JpegLibrary.JpegData.SetExifData | src/jpeg-data.c:484-504 | appending and shifting up is inserting after the first section, or the first APP1 is replaced |
| JpegLibrary.SavePictureWithExif | src/jpeg_capture.cpp:170-209 | the writes in order make up the spliced file |
| JpegLibrary.SaveByParsing | src/jpeg_capture.cpp:519-526 | the disabled path: parse, insert, print |
| JpegRoundTrip.LoadPrint | src/jpeg-data.c:189-286 | load(save(j)) is j for every well-formed list of sections with arbitrary image data, as far as the codec inverts on the EXIF in it |
| JpegRoundTrip.PrintLoad | src/jpeg-data.c:117-176 | save(load(d)) is d for every canonical stream |
| JpegRoundTrip.TruncatedScan | src/jpeg-data.c:254-268 | any header and a scan without EOI come back if and only if the image data is shorter than two bytes or its last byte but one is not 0xFF |
| JpegSplice.Shift | src/jpeg-data.c:201-284 | from an offset on, the parser's result depends on the bytes from there on only |
| JpegSplice.FillBytesIff | src/jpeg-data.c:207-217 | k fill bytes before a header marker mean the same as one if and only if k is at most 7; with more the parse ends there |
| JpegDamage.MarkerIff | src/jpeg-data.c:212-217 | a section starts at a 0xFF and a byte from 0xC0 to 0xFE; at another byte the parse ends with what it has |
| JpegDamage.DamagedSection | src/jpeg-data.c:226-253 | a section is read with its content if all of it is there; if the length field claims more, or less than its own two bytes, the section is left empty and the rest of the stream dropped |
| JpegDamage.UnreadExifPrinted | src/jpeg-data.c:144-147 | a section whose EXIF was not read is printed without a length field, and an end of image behind it is lost when that is read |
| JpegSplice.SplicedParses | src/jpeg_capture.cpp:194-209 | parsing the written file gives SOI, the EXIF, the XMP, and then exactly the original's sections and image data |
| JpegSplice.SplicedLayout | src/jpeg_capture.cpp:170-209 | where each byte of the written file comes from: two APP1 sections with their big-endian lengths behind the first two bytes of the image, EXIF data, then name space, zero and XMP text |
| JpegSplice.EmptyXmpLosesImage | src/jpeg_capture.cpp:183-188 | with an empty XMP text the parser finds nothing behind an empty APP1 |
| JpegSplice.SplicedKeepsImageIff | src/jpeg_capture.cpp:183-209 | for EXIF up to 65533 bytes, XMP up to 65504 and images below 2 GiB: the image is found in the written file if and only if the XMP text is not empty; the one caller (line 626) passes a text |
| JpegSplice.SplicedExif | src/jpeg-data.c:467-482 | reading the EXIF of the written file gives what was inserted, also if the original had its own |
| JpegSplice.SetExifEffect | src/jpeg-data.c:484-504 | the inserted EXIF is read back, and all other sections, their order and the image data stay; without any section an empty one is left, and no EXIF |
| JpegSplice.FastIsReference | src/jpeg_capture.cpp:519-526 | for a canonical image without APP1 the written file is, byte for byte, what parse, insert and print give, with the XMP segment put in behind the EXIF |
| Sei.EscapeBytes | src/sei_encoder.cpp:26-38 | the loop computes the escaping of a payload of any length |
| Sei.Encode | src/sei_encoder.cpp:12-43 | header and escaped sample are in the buffer, 47 to 59 bytes of it, and the rest is untouched |
| Sei.UnescapeEscape | src/sei_encoder.cpp:26-38 | the decoder of section 7.3.1 gives back any payload, in whatever state of the zero counter |
| Sei.MessageDecodes | src/sei_encoder.cpp:26-42 | the whole NAL unit decodes to header and payload |
| Sei.MessageInjective | src/sei_encoder.cpp:26-42 | different payloads never give the same message |
| Sei.PayloadReads | src/sei_encoder.cpp:17-24 | longitude, latitude, altitude, pitch, yaw and roll are read from the payload at 0, 4, 8, 12, 16 and 20 |
| Sei.MessageReads | src/sei_encoder.cpp:12-43 | a decoder of the whole message finds these six fields 19 bytes behind the start code |
| Sei.SamplesDiffer | src/sei_encoder.cpp:12-43 | different samples never give the same message |
| Sei.MessageHidesZeroPairs | src/sei_encoder.cpp:26-42 | every 00 00 in the NAL unit is followed by 03 |
| Sei.EscapeIsByRuns | src/sei_encoder.cpp:26-38 | the counter escapes each maximal run of zeros by itself, a 03 behind every second one |
| Sei.EscapedLength | src/sei_encoder.cpp:26-42 | one byte more for each half of a run, rounded down, and so at most n/2 more |
| Sei.DeclaredSize | src/sei_encoder.cpp:8-10 | the NAL unit is of type 6, its payload of type 5, and the size 0x28 in the header is that of UUID and payload before escaping |
| Sei.EndsInZeroIff | src/sei_encoder.cpp:26-42 | the message ends in zero if and only if the payload ends in an odd number of zeros |
| SeiConformance.MessageConformsIff | src/sei_encoder.cpp:26-42 | all byte rules of section 7.4.1 are met if and only if no byte above 3 follows a pair of zeros in the payload and the payload ends in an even number of zeros |
| SeiConformance.ClearedSampleFails | src/gps_estone.cpp:90-95 | the words that overwritten fields are in memory make a message that breaks them |
| SeiConformance.OddSampleFails | src/sei_encoder.cpp:26-42 | so does a sample that ends in one zero byte, and a reader does not get it back |
| GpsMessage.OverwrittenWords | src/gps_estone.cpp:90-95 | integers of -1 and floats of 2^32 lie in memory as FF FF FF FF and 00 00 80 4F, and in no other way |
| GpsMessage.SilentMessageFails | src/gps_estone.cpp:78-98 | whenever a lookup runs out while the receiver is silent, the sample it gives is that one, and its message breaks the rules |
| GpsMessage.MessageTellsSample | src/media_recorder.cpp:77-78 | samples with the same message agree in all six fields |
| AnnexB.SplitMessage | src/sei_encoder.cpp:40-42 | splitting message and frame gives one SEI NAL unit, less a last zero byte, and the frame's NAL units unchanged |
| AnnexB.StreamDecodes | src/media_recorder.cpp:84-86 | reading the stream gives header and payload, less the last byte of a payload ending in an odd number of zeros |
| AnnexB.PayloadReadIff | src/sei_encoder.cpp:26-42 | the payload is read back whole if and only if it ends in an even number of zeros |
| FramedSources.FramedSource.WriteFrameToBuf | src/ipcu555_framed_source.cpp:14-36 | taken exactly if the frame has at most 204800 bytes, there is a reader and the lock is free; otherwise nothing changes; else message and frame stand at the front of memory, all else stays, and what lies behind the buffer is written exactly if they do not fit together |
| FramedSources.FramedSource.DeliverFrame | src/ipcu555_framed_source.cpp:89-141 | a pending request is answered from the content behind the start code, up to the size asked for; without one nothing changes |
| FramedSources.ContentIsLastTaken | src/ipcu555_framed_source.cpp:14-36 | while all writes stay inside the buffer, the content is that of the last one taken, whole |
| FramedSources.EachDeliveryIsOneWrite | src/ipcu555_framed_source.cpp:113-140 | while all writes stay inside, each delivery is what the newest write taken put behind its start code, up to the size asked for, with the rest counted as truncated; it is empty with a busy lock, before the first write, and for at most four bytes |
| FramedSources.DeliveriesInOrder | src/ipcu555_framed_source.cpp:89-141 | deliveries never go back to an older write |
| FramedSources.DeliveryDecodes | src/ipcu555_framed_source.cpp:113-140 | a delivery with nothing truncated holds the SEI NAL unit and the frame's NAL units |
| FramedSources.MessageInsideIff | src/ipcu555_framed_source.cpp:17-32 | message and frame stay inside the buffer if and only if the frame leaves 47 bytes and one for each pair of zeros in the sample |
| FramedSources.EveryMessageFitsIff | include/ipcu555_framed_source.h:7 | every message fits before a frame if and only if it leaves 59 bytes |
| FramedSources.SomeMessageFitsIff | include/ipcu555_framed_source.h:7 | some message fits before a frame if and only if it leaves 47 bytes |
| FramedSources.SmallestOverrun | src/ipcu555_framed_source.cpp:17-32 | a frame of 204742 bytes is taken, and with a sample of zeros ends one byte behind the buffer |
| Gps.GpsEstone.HandleData | src/gps_estone.cpp:138-149 | the ring holds the last 64 samples of the history |
| Gps.RingIsRetained | src/gps_estone.cpp:138-149 | pushing any number of samples one by one leaves the last 64, in order |
| Gps.GpsEstone.GetGpsData | src/gps_estone.cpp:58-104 | the loop finds the sample that the lookup function names; -1 exactly on an empty ring |
| Gps.LookupAgrees | src/gps_estone.cpp:67-102 | the sample has the greatest time up to the query of the whole history, or is the oldest retained for an earlier query; it is given as it came in, unless the search ran out and nothing came for more than 2000 ms: exactly then its integers are -1, its angles 2^32, and its time that of the newest sample |
| Gps.LookupNewest | src/gps_estone.cpp:65-66 | query 0 gives the newest sample, never overwritten |
| Gps.ExactTimeFound | src/gps_estone.cpp:73-76 | the time of a retained sample is answered with a sample of that time, whole |
| Recording.StreamReceiver.RemoveConsumer | src/stream_receiver.cpp:55-63 | the index loop that erases as it goes, with its skipping |
| Recording.RemovesAllIff | src/stream_receiver.cpp:55-63 | it removes all entries of a consumer if and only if no two of them are neighbours |
| Recording.StreamReceiver.Cb | src/stream_receiver.cpp:14-35 | the consumers of that stream are called in order, and the recorder writes once per call while it records |
| Recording.CalledExactly | src/stream_receiver.cpp:20-33 | each entry for the type and id of the frame, of whichever consumer, gets one call, in the order of the list, and no other entry any |
| Recording.App.FrameArrives | src/stream_receiver.cpp:14-35 | a frame leaves list and status as they are; the file gains it once for each call of the recorder while recording |
| Recording.App.VideoStart | src/main.cpp:193-200 | refused while recording; else the recorder joins the list whatever start_record returned |
| Recording.App.VideoStop | src/main.cpp:201-210 | refused unless recording; else trailer and removal |
| Recording.StepAsPlanned | src/main.cpp:193-210 | every command and frame but a failing start keeps list, status and file as planned |
| Recording.AsPlannedIff | src/main.cpp:193-210 | the recorder is in the list exactly once while recording and never otherwise, and the file as planned, at all times, if and only if every start carried out succeeded |
| Recording.RecordsWanted | src/media_recorder.cpp:127-189 | then the file is (header frame* trailer)* and an open rest, with each wanted frame once and in order |
| Recording.PlannedRecordings | src/media_recorder.cpp:157-189 | the planned file has that shape |
| Recording.PlannedFrames | src/media_recorder.cpp:181-189 | the planned file has the frames that came in while their stream was recorded |
| Recording.FailedStartStrays | src/main.cpp:199-200 | a failing start leaves the recorder in the list while nothing is recorded |
| Recording.FrameWrittenTwice | src/main.cpp:199-200 | after a failing and a succeeding start a frame is written twice |
| Resolution.SetResolution | src/ipcu_stream.c:98-118 | the index sent is the first minimiser of the distance if that is below width + height, and the default otherwise; no other channel sends |
| Resolution.ChosenUnique | src/ipcu_stream.c:103-116 | that determines the index |
| Resolution.DefaultIff | src/ipcu_stream.c:103-116 | the index is the default if and only if no size shares more than half of its width and height with the one asked for, or the default is the first nearest; any other index exactly if it is the first nearest and some size does |
| Resolution.EntryChosen | src/ipcu_stream.c:107-110 | a size of the table is chosen itself |
| Resolution.SmallGetsDefault | src/ipcu_stream.c:103-116 | a size for which the default is chosen although others are nearer |

## Left out

- StreamQueues.StreamQueue.RemoveRelease: is for members; what the same function does to other nodes is in `NodeList.Remove` and `RemoveReleaseAgain`.
- StreamQueues.StreamQueue.RemoveCommandAgain: the node is still the head of the pool and nothing comes between removal and push; for a node elsewhere only the effect on the pointers is stated (`NodeList.Remove`), and no run is followed beyond such a removal.
- ProtocolProgress.NoDeadlock: says that some thread can move, not that every thread gets its turn; fairness of locks is not modelled.
- JpegSplice.SplicedParses: the image starts with SOI, and no marker E1 stands right behind it without its 0xFF; the reader would hand such a section's neighbouring byte to the EXIF codec.
- FramedSources.FramedSource.WriteFrameToBuf: the message is at most 128 bytes long, the size of the caller's array; the 128 bytes of memory behind the buffer are the only ones the model keeps, and nobody else writes them.
- FramedSources.ContentIsLastTaken: says nothing about runs in which a write has gone beyond the buffer.
- ProtocolExtraCalls.ExtraCallOutcome: the call is made while nobody else is inside a call on the release list; `ListedCalls` is about any order.
- Sei.Encode: the encoder writes no trailing bits behind the payload (section 7.3.2.3), and the model adds none.
- Waiting inside `dequeue_recv_command` and the condition variables are part of the transition system only; the class has the list operations that happen under the locks.
- The step that leaves a critical section is merged with the last step inside it; the search of a list and the update of the found counter are one step, since the outer lock is held throughout.
- Which of the six callbacks takes a message is not recorded; the sub-command that chooses it is among the bytes it sees.
- ProtocolCounts.CountSet: speaks of counts of at least 1, as the rule for clients demands; for others `QueueSpec.SetCountEffect` has the counter, and `ReleaseManyReturns` what calls one after another do.
- ProtocolReturns.ReleasedAfterN: says what holds once the calls have returned, not that they return; fairness of locks is not modelled.
- A callback runs in the stream thread; releases it makes itself are modelled as those of a client thread.
- ProtocolSendings.SentAgainIff: reading the node and sending its release are one step, under the send lock; the source takes that lock after reading, and only for a valid magic.
- IPCU driver calls: a send is an entry in a log and always succeeds; address translation is an arbitrary function.
- Messages shorter than their own header: a field past the end of the message reads as zero.
- Failing allocations and thread creation, a second start after a close, the DEBUG_BUFFER counters and log output.
- The camera command channel (`camera_if_*`), which depends on the timing of a driver that is not part of this model.
- EXIF tags, the XMP text, file opening and the result codes of the writes; all writes are complete.
- JPEG payloads above 65533 bytes, whose length field is truncated when printed, are outside the round trips.
- live555: it resets the truncated count with each request, and ends a request with the delivery; event triggers are not modelled, deliveries may come at any time.
- Parsing of GPS messages, clocks (the time is a parameter), and rounding: the three angles are reals that are only copied, and stand in memory as the words with exactly these values.
- ffmpeg: a recording is the sequence of header, frames and trailer calls; a frame's write may not fail.
- Each command and each frame is one atomic step for the recorder; the unsynchronised access to the consumer list is not modelled.
- Widths and heights whose sum overflows an int, and negative ones.
- RTSP streaming without live555 (deprecated), the other capture consumers, command-line handling and JSON.
