# Verification of the chat and file client

A Dafny model of the Qt client in `clint/tfClint`, with proofs. It covers the three parts of the
client that have real state: the file transfer protocol, the two message queues between threads,
and the chat pages with their index. The wire format ties them together.

`dafny verify dfyconfig.toml` checks everything.

| file | what it models |
|---|---|
| `Wire.dfy` | the packed `Head` and `fHead`, file frames, the 1024-byte chat buffer |
| `FileSender.dfy` | `lifilethread`: the file stream, one turn of its loop, the loop itself |
| `SenderProofs.dfy` | what every run of the sender keeps |
| `SenderFrames.dfy` | the same of the bytes it puts on the socket, from the bytes of the replies |
| `FileReceiver.dfy` | `refilethread` and `rebackfalse` |
| `Transfer.dfy` | sender and receiver together over a byte relay that may refuse packets |
| `WriteQueue.dfy` | `write_thread` and its producers, as interleaved atomic steps |
| `ReadQueue.dfy` | `read_thread` and the waiting part of `handle_message` |
| `TalkRooms.dfy` | pages, rows, `widgetId`, transcripts, and the basename loop |

Each loop or handler that updates state is a method over a class or an array. Its contract ties the
new state to a function on values: the loops to `Run`, one turn to `Step`, the window's handlers to
`TalkRooms.Step`, the critical sections of the two queues to the `Next` of their state machines. The
properties are proved about those functions.

## How the parts are modelled

**The sender** hears an arbitrary list of reply codes, not only those of the protocol; when the list
ends, its next read throws and the thread returns. The input stream is a position and a failbit: a
short read sets failbit, `tellg` is then -1 and `seekg` does nothing (section 27.7.2.3 of ISO C++11).
Three things the code does are results here. A `readerror` for a short last packet cannot be obeyed,
because the stream has failed, and the loop ends as a success with that packet missing. A file that
cannot be opened is reported as sent. A `readerror` that does not answer exactly one packet shifts
the packet numbers. An unknown code followed by an ack passes over a packet for good.
`FramesDeliver` and `NumberedIffTimed` say, in terms of the replies, exactly when each promise
holds; `RejectedTailReportsSuccess`, `UnopenedReportsSuccess`, `RefusedAnnouncementMisnumbers` and
`PassedOverChunkIsLost` are runs on which it does not.

**The receiver** meets an arbitrary peer and an arbitrary disk. Its success exit comes before the
checks of the output file, so success says that the totals match. `SuccessStores` says exactly when
the file on disk is complete as well, and `SuccessWithoutFile` is a success that stores nothing.

**The relay** of `Transfer` carries bytes in order, hands the announced length over, and may answer
`readerror` for a packet and drop it. That is an assumption about the environment: neither server in
the repository is part of this model, and the file server there (`connection.cpp`) speaks another
header protocol. A length that is a multiple of 40960 has no status-2 packet, so the receiver cannot
succeed; otherwise it stops without a last ack, so the sender cannot. `OneEndSucceeds` proves that
exactly one of them ever reports success, and which one from the length and the relay's refusals.

**The queues** are state machines whose steps are single atomic actions, with the mutex owner, the
flag, the queue, the condition variable and one program counter a thread. The block between finding
the flag down and blocking is a state of its own. On the write side the flag is set under the lock,
no wakeup is lost and everything pushed is written. On the read side it is set outside the lock, and
`LeftBehind` says exactly which messages stay behind, counted on the moves of the run; two runs show
both ways it happens, and `OneByOne` that nothing stays behind when messages come singly.

**The pages** take an arbitrary sequence of room creations, room messages, direct messages, notices,
file offers and row selections. Transcripts are compared with a routing defined on the events alone,
and so is the page in view.

## Model

| member | source | states |
|---|---|---|
| Wire.HeadRoundTrip | clint/tfClint/clint.h:20-39 | a 29-byte header is read back exactly, whatever follows it in the buffer, if and only if every field fits its type |
| Wire.HeadWraps | clint/tfClint/clint.h:20-39 | any header is read back reduced to 32 bits, `packid` signed |
| Wire.HeadBytesBack | clint/tfClint/clint.h:83-95 | decoding loses no byte: re-encoding a received header gives the same 29 bytes |
| Wire.HeadLayout | clint/tfClint/clint.h:20-30 | the struct's layout, field by field as little-endian bytes at offsets 0, 1, 5, ... 25, `packid` in two's complement: a buffer decodes to a header, and a header that fits encodes to a buffer, if and only if they agree with it |
| Wire.FHeadRoundTrip | clint/tfClint/widget.h:53-55 | a packet header is read back reduced to 32-bit words, so unchanged if and only if every field fits |
| Wire.FHeadBytesBack | clint/tfClint/clint.h:31-39 | decoding a packet header loses none of its 21 bytes |
| Wire.FHeadLayout | clint/tfClint/clint.h:31-38 | the layout of the packet header, field by field as signed little-endian bytes at offsets 0, 1, 5, ... 17, both ways |
| Wire.SplitConcat | clint/tfClint/widget.cpp:768 | cutting a byte stream at 40981 undoes the concatenation of frames |
| Wire.SplitAt | clint/tfClint/widget.cpp:768 | read k of a byte stream is its k-th 40981 bytes, whatever comes after |
| Wire.SplitCount | clint/tfClint/widget.cpp:768 | there is one read per whole frame in the stream and no other |
| Wire.PacketStreamRoundTrip | clint/tfClint/widget.cpp:588-606 | a stream of packets decodes to the same headers and payloads, independent of the stale bytes behind a short chunk |
| Wire.ChatRoundTrip | clint/tfClint/widget.cpp:421-434 | a chat message comes back from the zero-padded 1024-byte buffer if and only if header and text fit it; beyond that the text range leaves the buffer |
| Wire.ReadIntoBuffer | clint/tfClint/clint.cpp:20-22 | the first 1024 bytes of a message, and zero at every place behind a shorter one |
| FileSender.InFile.Read | clint/tfClint/widget.cpp:568-575 | a read overwrites the front of the buffer, leaves the rest, moves the stream and sets failbit when short |
| FileSender.InFile.Seekg | clint/tfClint/widget.cpp:564 | seeking does nothing on a failed stream and fails it on a negative offset |
| FileSender.InFile.Tellg | clint/tfClint/widget.cpp:548 | the offset, or -1 on a failed stream |
| FileSender.Respond | clint/tfClint/widget.cpp:547-565 | an ack commits the offset, a `readerror` steps the counter back and rewinds, any other code does neither |
| FileSender.ReadPacket | clint/tfClint/widget.cpp:567-606 | the packet of the chunk read at the stream's position, or the end of the loop on an empty read |
| FileSender.TakeTurn | clint/tfClint/widget.cpp:518-617 | one turn over the stream, the buffer and the counters has exactly the effect of `Step`: reply, seek, read, frame or exit |
| FileSender.SendLoop | clint/tfClint/widget.cpp:491-617 | the loop sends exactly the frames, and ends in exactly the phase, of the specified run on the status words of these replies, reply by reply |
| FileSender.LiFileThread | clint/tfClint/widget.cpp:459-668 | announcement of name and length (-1 when not opened), frames, phase, and the one notice, from this account to the addressee, pushed on success only |
| SenderProofs.AcceptedIsPrefix | clint/tfClint/widget.cpp:543-585 | at every moment the accepted payloads are a prefix of the file unless an unanswered packet was passed over, and never exceed it |
| SenderProofs.FinishedDelivers | clint/tfClint/widget.cpp:518-630 | on the success exit the accepted payloads are the file if and only if it is empty, or it was opened, nothing unanswered was passed over and the last reply is an ack |
| SenderProofs.RejectedTailReportsSuccess | clint/tfClint/widget.cpp:552-578 | the failing case: a short file whose only packet is refused is reported as sent with nothing accepted |
| SenderProofs.UnopenedReportsSuccess | clint/tfClint/widget.cpp:465-475 | a file that did not open is reported as sent on any first reply but `fitrfail`, with no packet out |
| SenderProofs.PassedOverChunkIsLost | clint/tfClint/widget.cpp:544-585 | the failing case: an unknown code then an ack ends a file of two chunks as a success with the first chunk never accepted |
| SenderProofs.StepInv | clint/tfClint/widget.cpp:543-585 | one turn on any reply keeps the loop's invariant and sends one packet, or ends the loop and sends none |
| SenderProofs.NumberedIffTimed | clint/tfClint/widget.cpp:547-585 | every packet numbered k was read at offset 40960k if and only if each `readerror` the sender acted on, found in the replies up to its last packet, answered exactly one packet |
| SenderProofs.RefusedAnnouncementMisnumbers | clint/tfClint/widget.cpp:552-585 | the failing case: a `readerror` as first reply sends the chunk at offset 0 with number -1 |
| SenderProofs.PacketsCarryTheirChunk | clint/tfClint/widget.cpp:567-606 | every packet ever sent carries the chunk at its offset, and under that condition on the replies the chunk its number names |
| SenderProofs.FinalPacketMarking | clint/tfClint/widget.cpp:580-585 | in every finished run status 2 is on the last packet only, and only if the length leaves a remainder, which it carries |
| SenderProofs.ExactWork | clint/tfClint/widget.cpp:518-583 | with protocol codes a finished run sent one packet per chunk plus one per `readerror` answered by a resend; `packid` ends at the number of chunks, less one if the first reply was `readerror` and less one if a `readerror` after a packet ended the run |
| SenderProofs.RunningIsBounded | clint/tfClint/widget.cpp:518-617 | termination for any peer: R `readerror`s leave at most R + 1 passes over the file, with protocol codes at most R extra packets |
| SenderFrames.FramesAre | clint/tfClint/widget.cpp:578-600 | every frame sent, byte by byte: the packed header of its packet, the file from the offset it was read at, and behind a short chunk the bytes left over from the frame before it |
| SenderFrames.FramesAreNumbered | clint/tfClint/widget.cpp:547-600 | if each `readerror` acted on answered exactly one packet, the frame whose header says number j carries chunk j of the file, first time or resent |
| SenderFrames.FramesDeliver | clint/tfClint/widget.cpp:518-630 | on the success exit the payloads cut out of the acked frames are the file if and only if it is empty, or it was opened, no unknown status word was followed by an ack, and the reply to the last frame is an ack |
| FileReceiver.TakePacket | clint/tfClint/widget.cpp:767-852 | one turn over the receive buffer and the file has exactly the specified effect |
| FileReceiver.ReadExactly | clint/tfClint/widget.cpp:768 | an exact read overwrites 40981 bytes of the buffer and nothing else |
| FileReceiver.OutFile.Write | clint/tfClint/widget.cpp:810 | a write that does not fit keeps what fits and sets badbit; after that nothing is written |
| FileReceiver.ReceiveLoop | clint/tfClint/widget.cpp:727-853 | the loop ends with exactly the specified verdict and file, one ack written ahead of every read |
| FileReceiver.LoopOverTurns | clint/tfClint/widget.cpp:756-852 | over the packets as they come: the loop stops on the first one that is not a middle packet stored in full, succeeds if and only if that one has status 2 and completes the announced length, and leaves on disk all payloads before it and what fits of its own |
| FileReceiver.ReFileThread | clint/tfClint/widget.cpp:683-915 | verdict and file bytes over the packets as they come, a connection that ends early included; the request and one `firetrst` header per turn on the socket, decoded; one status 3 message with the name on every failure, at most one with status 2 on success |
| FileReceiver.ReceivingStores | clint/tfClint/widget.cpp:786-853 | while it goes on, the file is the concatenation of the payloads and `cursize` is its length |
| FileReceiver.SucceedsExactly | clint/tfClint/widget.cpp:817-852 | success against any peer and disk, in closed form: stored middle packets, then a status-2 packet that completes the announced length |
| FileReceiver.VerdictOf | clint/tfClint/widget.cpp:817-852 | the first packet that is not a stored middle one decides; a status-2 packet with any other total fails |
| FileReceiver.SuccessStores | clint/tfClint/widget.cpp:809-824 | on success the totals match, and the file is complete if and only if the last payload is empty or was stored in full in an open file |
| FileReceiver.SuccessWithoutFile | clint/tfClint/widget.cpp:809-829 | the failing case: a one-packet file reports success with nothing stored when the output did not open, and with a prefix when the disk was full |
| Transfer.MoveKeepsInv | clint/tfClint/widget.cpp:518-617 | every move of either end or the relay keeps the joint invariant |
| Transfer.NextMoves | clint/tfClint/widget.cpp:518-617 | in every state of the joint invariant exactly one move is possible, but for the relay's choice to refuse a packet in flight |
| Transfer.StopAndWait | clint/tfClint/widget.cpp:756-853 | in every reachable state the receiver's file is a prefix of the sender's and at most one whole message is under way |
| Transfer.NotStuck | clint/tfClint/widget.cpp:756-776 | no deadlock: while an end still waits, some move other than a refusal is possible |
| Transfer.EveryRunEnds | clint/tfClint/widget.cpp:518-617 | every run ends within two moves per refusal and three per chunk, when and only when both ends have stopped |
| Transfer.CanFinish | clint/tfClint/widget.cpp:518-617 | every run has a continuation without a further refusal in which both ends stop |
| Transfer.MoveLosesTail | clint/tfClint/widget.cpp:552-583 | the short last packet is lost by the move that refuses it and by no other |
| Transfer.OneEndSucceeds | clint/tfClint/widget.cpp:817-829 | exactly one end reports success; it is the receiver, with the whole file and the announced count, if and only if the length leaves a remainder and no move of the relay refused the status-2 packet; otherwise the receiver holds the full chunks only |
| Transfer.FaithfulRelay | clint/tfClint/widget.cpp:578-585 | in a run without a refusal the receiver ends with the whole file, and succeeds if and only if its length is not a multiple of 40960 |
| WriteQueue.Outbox.Push | clint/tfClint/widget.cpp:435-440 | a producer's critical section appends the message and raises the flag, as the machine's push and raise do |
| WriteQueue.Outbox.Drain | clint/tfClint/clint.cpp:44-57 | the writer's critical section writes the whole queue in order, empties it and puts the flag down, as the machine's moves from drain to unlock do |
| WriteQueue.NoLostWakeup | clint/tfClint/clint.cpp:31-57 | for any producers and interleaving, a writer asleep on a raised flag has a producer that still owes its notification |
| WriteQueue.ConservesMessages | clint/tfClint/clint.cpp:44-57 | written, in hand and queued are together the pushes in lock order; with the mutex free the flag tells whether the queue is empty |
| WriteQueue.GapIsHarmless | clint/tfClint/clint.cpp:35-45 | between the wait and the second lock the flag stays up, and the drain starts on a non-empty queue |
| WriteQueue.EverythingIsWritten | clint/tfClint/clint.cpp:31-57 | delivery: bounded work per push, and when no thread can go on everything pushed has been written in order |
| WriteQueue.PushGoes | clint/tfClint/widget.cpp:435-440 | with the mutex free a producer's block goes through whatever the writer is at, with this exact effect, and wakes it if it sleeps |
| WriteQueue.PushGetsThrough | clint/tfClint/widget.cpp:435-440 | from every reachable state, for every producer and message, some continuation makes that push and ends with the message last and everything pushed written |
| WriteQueue.PushWakesWriter | clint/tfClint/clint.cpp:31-57 | a run in which a push wakes a sleeping writer, which writes the message and sleeps again |
| WriteQueue.PushInGap | clint/tfClint/clint.cpp:35-45 | a run in which a push falls between the writer's two locks and goes out with the message before it |
| WriteQueue.SpuriousIsHarmless | clint/tfClint/clint.cpp:36-41 | a spurious wakeup of the sleeping writer with nothing queued leads back to the same state |
| WriteQueue.ProducerWaits | clint/tfClint/widget.cpp:435-440 | a producer is blocked if and only if another thread has the mutex before its push |
| WriteQueue.WriterWaits | clint/tfClint/clint.cpp:31-57 | the writer is blocked if and only if it sleeps, or wants the mutex that another thread has |
| WriteQueue.DrainWritesQueue | clint/tfClint/clint.cpp:45-56 | undisturbed, the atomic steps of the drain add up to the effect of the critical section |
| ReadQueue.Inbox.TestAndClear | clint/tfClint/widget.cpp:268-274 | the wait predicate returns the flag and puts it down: the machine's test and clear, or its test on the way to sleep |
| ReadQueue.Inbox.Receive | clint/tfClint/clint.cpp:20-26 | the reader's critical section appends the zero-padded buffer and leaves the flag alone, as the machine's push does |
| ReadQueue.Inbox.RaiseFlag | clint/tfClint/clint.cpp:27 | the raise outside the lock is the machine's, whatever the flag was |
| ReadQueue.Inbox.TakeOne | clint/tfClint/widget.cpp:275-281 | takes the front message, or nothing from an empty queue, as the machine's pop does |
| ReadQueue.ReadAccounting | clint/tfClint/clint.cpp:17-30 | in every interleaving order is kept, and over the moves made: each push has its raise, each raise was cleared, is up or merged, and each message taken used up one cleared flag |
| ReadQueue.NeverSkips | clint/tfClint/widget.cpp:275-280 | the `continue` on an empty queue is never reached |
| ReadQueue.LeftBehind | clint/tfClint/widget.cpp:262-281 | when no move is left but a new message or a spurious wakeup, both threads wait, and the queue holds exactly one message per raise that found the flag up, plus one if and only if a standing raise was notified while the handler was between test and sleep and no test followed; so all is handled if and only if neither happened |
| ReadQueue.OneByOne | clint/tfClint/clint.cpp:17-30 | a sleeping handler is woken by a message and handles it, for any list of messages that come one by one |
| ReadQueue.TwoMessagesMerge | clint/tfClint/clint.cpp:23-28 | a run in which two messages share one raise and the second is never handled |
| ReadQueue.WakeupLost | clint/tfClint/clint.cpp:27-28 | a run in which the handler sleeps on a raised flag with nobody to wake it |
| ReadQueue.LateNotifyIsHarmless | clint/tfClint/clint.cpp:27-28 | a run in which a notification falls into the same gap after its raise was used up, and nothing stays behind |
| ReadQueue.SpuriousRecovers | clint/tfClint/widget.cpp:268-281 | a handler asleep on a raised flag has no move but a spurious wakeup, which makes it handle the waiting message |
| ReadQueue.Incoming | clint/tfClint/clint.cpp:17-30 | with the mutex free a message comes in whatever the handler is at, with this exact effect, and wakes it if it sleeps |
| ReadQueue.Serve | clint/tfClint/widget.cpp:262-285 | from outside or woken, on a raised flag, the handler takes and handles the front message and comes back |
| ReadQueue.ReaderWaits | clint/tfClint/clint.cpp:17-30 | the reader is blocked if and only if it wants the mutex that another thread has |
| ReadQueue.HandlerWaits | clint/tfClint/widget.cpp:262-285 | the handler is blocked if and only if it sleeps, or wants the mutex that another thread has |
| TalkRooms.Window.BuildTalkRooms | clint/tfClint/widget.cpp:176-180 | a new room gets an empty last page, a row with its id and an index entry for that page, and the page in view stays |
| TalkRooms.Window.SetCurrentIndex | clint/tfClint/widget.cpp:171-175 | selecting a row shows its page; an index out of range changes nothing |
| TalkRooms.Window.SignalMesSolt | clint/tfClint/widget.cpp:183-196 | a direct message appends its text, ` --from`, the sender and a line end to the first page |
| TalkRooms.Window.SignalPerSolt | clint/tfClint/widget.cpp:197-203 | a notice appends its text on a line of its own to the first page |
| TalkRooms.Window.SignalFileRecvSlot | clint/tfClint/widget.cpp:204-218 | a file offer appends its name, ` from:` and the account on a line of its own to the first page |
| TalkRooms.Window.SignalMesTalk | clint/tfClint/widget.cpp:55-66 | a room message shows the page the map reads, inserting 0 for an unknown room, and appends `mes --fromsender` and a line end there |
| TalkRooms.IndexAgreesWithSearch | clint/tfClint/widget.cpp:176-180 | after any events the map reads, for every id, what a search of the list gives; rows, pages and counter stay level |
| TalkRooms.TranscriptsConserved | clint/tfClint/widget.cpp:183-196 | every page holds exactly the messages routed to it on arrival, in order |
| TalkRooms.ShownIsCurrent | clint/tfClint/widget.cpp:171-175 | the page in view after any events: the existing row last selected, or the page of the last room message, whichever came later |
| TalkRooms.Basename | clint/tfClint/widget.cpp:979-983 | the loop over the shrinking name ends with the part after the last slash |
| TalkRooms.BasenameIsUnique | clint/tfClint/widget.cpp:978-983 | that description fits one string only |

## Left out

- Wire: a message longer than one `read_some`, and reads or writes that move part of a message, other than the 40981-byte read and the full write.
- FileSender.LiFileThread: files of 2^31 bytes and more, where the `int` length and the 32-bit `long` offset wrap; disk errors behind `ff.bad()`; a socket write that throws, which ends the run just as a read that throws; `packid` wraps only in the encoded header.
- FileSender.SendLoop: the member `buff` that two concurrent sends would share.
- FileReceiver.ReFileThread: a packet length beyond the buffer, which is undefined behaviour; `cursize` is not bounded to 32 bits; a negative length takes the catch branch, as the library it is built with throws there.
- FileReceiver.TakePacket: a `close` that fails to flush.
- Transfer: the file server's own protocol; the relay hands the announced length to the receiver, its disk takes every write, and both ends open their files.
- WriteQueue and ReadQueue: socket errors that end a thread, and weak memory orderings: the atomic flag is sequentially consistent.
- ReadQueue: what `handle_message` does with each message type after it has it.
- TalkRooms: typing into a page, the agreement between selected row and shown page, the room id taken from the selected row, and the text round trip of the editor widget.
- Speed display, layout, mouse handling, string conversions, child processes, login dialog and stress test: library calls or easy members.
- The servers: neither `mes_server` nor `file_server` is part of this model. The file server there uses another header than the client's `fHead` and never sends `firetrst`, so what answers the client's transfer threads is the relay's assumption.
- The commented-out start of the transfer threads (`clint/tfClint/widget.cpp:1024-1031`): the two thread functions are modelled from their own parameters.
