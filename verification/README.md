# SAKURA SDK core: verified model

This project models four parts of the SAKURA client SDK and proves what they promise:
the static heap allocator, the MQTT 3.1.1 client engine with its packet encoders, the DNS
name codec, and the cJSON printer, parser and sibling lists.

Code that works by changing state is modelled as classes and methods over arrays and
fields, each proved against a specification function; what the code is for is then proved
about those functions, for every input and every run.

**Heap allocator.** `HeapMemory`, `HeapLayout`, `BinOps` and `Heap` work on a byte array:
node headers, 8-byte links, footers and nine bins, with the pointer writes of the source.
`Heap.Heap.Valid` ties the bytes to an abstract arena (blocks and bins), `BinLists`,
`ArenaSpec` and `AllocatorSpec` prove the laws of that arena: tiling, agreement of bins and
holes, complete best fit, and the return to the initial state. `HeapFrames`, `HeapGrant` and
`HeapCut` carry the memory layout through the intermediate states of an operation.

**MQTT.** `MqttWire` is the wire format, `MqttReceive` and `MqttReceiver` the reassembly of a
byte stream, `MqttFrames` and `MqttFrameBuffer` the self-delimiting frames of the send and
backup buffers, `MqttConnect` and `MqttPack` the encoders, and `MqttLayout` says which bytes
they write and what a server reads in them. `MqttScan` is the loop that takes a tracker's
messages out of the send buffer, `MqttRemoval` what it leaves; `MqttExact` and
`MqttEven` say when it leaves exactly the others. `MqttEngine` is the client as a state
machine of 24 trackers and two frame buffers; `MqttClient` holds the methods that implement it
in place. `MqttAgreement`, `MqttSlots`, `MqttQueue`, `MqttQos2`, `MqttInbound` and `MqttRetry`
prove properties of all runs of that machine. `MqttAnswers`, `MqttDelivery` and `MqttLife` say
in packets, given by their bytes, and in ticks what it does: which packet ends which request,
what is reported, repeated, given up, kept alive and taken leave of. `MqttTick` joins
receiving, dispatching, sending, the trackers and the keepalive into the tick of the client
and proves that every session of calls, arriving chunks and ticks is such a run; `MqttRelease` names the passes in
which every release ends and cuts no queued message, and `MqttPatience` proves that, and the
agreement of trackers and backup buffer, of all sessions without refused connects; `MqttStale`
and `MqttCut` are sessions with refused connects in which one of them fails. `MqttStream` says
what a session dispatches of its stream, and `MqttSession` is the tick in place. Sockets, TCP
and callbacks are inputs or records: each send takes the answer of the socket as an argument,
and the engine records what was enqueued, what was handed to the socket and what was reported.

**DNS.** `Dns` encodes dotted names, `DnsDecode` defines decoding of labels and compression
pointers, `DnsRoundTrip` says which names come back, `DnsEnds` when decoding ends, and
`DnsDecoder` is the decoder in place.

**cJSON.** `CjsonText` defines printed text and parsing as functions, `CjsonRoundTrip` proves
them inverse and `CjsonDepth` on which trees. `CjsonGrammar` is the grammar of JSON with what
its texts mean, all of which the parser reads so, and `CjsonSound` proves that it accepts
nothing else but codes with bad digits; `CjsonUtf8` is the reading of characters and escapes, `CjsonLayout` the layout
of printed text. `CjsonPrinter` and `CjsonParser` are the growing print buffer and the
recursive parser in place, and `CjsonList` the doubly linked sibling lists.

`Bytes`, `Memmove` and `Options` hold what these parts share.

Nine properties one would expect do not hold of the code without a condition; the exact
conditions are proved:

- Tracker flags and the backup buffer: `MqttAgreement.StepsAgreeIff` and, over whole runs,
  `MqttAgreement.RunsAgreeIff`, with a session, tick by tick, that breaks the agreement in
  `MqttStale.ReleasedTrackerRevives`; sessions without refused connects keep it
  (`MqttPatience.PatientSession`).
- The announced packet length: `MqttWire.PacketLenExact` (remaining length 2097151) and
  `MqttConnect.ConnectExact` (will flag without a topic or payload).
- The PUBLISH round trip: `MqttWire.PublishRoundTrip` (QoS 0 with a payload under two bytes).
- The memory move that removes a backup frame writes only within the buffer iff the offset of
  the frame is at most the free space and its length (`MqttFrameBuffer.RemovalWritesInside`),
  and depends only on the buffer iff the offset and the length of all frames are at most its
  size (`MqttFrameBuffer.RemovalReadsInside`). In a full buffer it overwrites what lies behind
  for every frame shorter than what precedes it (`MqttFrameBuffer.RemovalLeavesFullBuffer`).
- Releasing a tracker ends, takes its waiting message out of the send buffer and leaves all
  others whole iff the walk over the bytes behind the message, from as far on as it was long,
  comes to no header of the tracker and to none whose length is 0 in 32 bits
  (`MqttExact.OneExactIff`); for any number of its messages, all being of one length, iff each
  is followed by one of another tracker or they stand at the end (`MqttEven.EvenExactIff`). The
  scan does not end iff it comes to a header of length 0 (`MqttRemoval.EndlessIff`,
  `MqttScan.ScanIsLoop`). Sessions, tick by tick, that cut a publication and that never leave
  the scan are `MqttCut.NextMessageIsCut` and `MqttCut.ReleaseNeverEnds`; in sessions without
  refused connects neither happens (`MqttPatience.PatientSession`).
- Decoding a DNS name ends, within a bound known beforehand, iff it does not reach a position
  from which pointers lead back to it (`DnsEnds.RunsOnIffCaught`), with packets that run on in
  `DnsEnds.SelfPointerRunsOn`.
- A DNS name comes back from its encoding iff it has neither an empty label nor one of more than
  63 bytes, and fits (`DnsRoundTrip.RoundTripIff`).
- Disconnecting ends the connection iff a frame without a tracker was queued first or the
  application asked to be told (`MqttLife.DisconnectEnds`); otherwise the client stays
  disconnecting (`MqttLife.StaysDisconnecting`).
- A printed JSON tree is read back iff its nesting depth is within the limit of the parser
  (`CjsonDepth.PrintParseIff`).

## Model

| member | source | states |
|---|---|---|
| AllocatorSpec.InitInv | src/platform/unix/memory/static/heap_allocator/heap.c:16-40 | the arena after initialisation satisfies the whole invariant: one hole tiles it and is linked in its bin |
| AllocatorSpec.AllocKeepsInv | src/platform/unix/memory/static/heap_allocator/heap.c:42-110 | allocation keeps the invariant: the blocks tile [start, end), no two neighbours are both free, and a block is linked in exactly one bin, the sorted bin of its size, iff it is a hole |
| AllocatorSpec.FreeKeepsInv | src/platform/unix/memory/static/heap_allocator/heap.c:112-176 | freeing a pointer in use, or NULL, keeps the same invariant through both coalescing steps |
| AllocatorSpec.RunKeepsInv | src/platform/unix/memory/static/heap_allocator/heap.c:16-176 | the invariant holds after every run of allocations and frees of pointers in use |
| AllocatorSpec.AllocIsCompleteBestFit | src/platform/unix/memory/static/heap_allocator/heap.c:59-81 | NULL is returned iff no hole of the whole arena has at least m bytes, m being the least multiple of four that is not below the request; otherwise the block is a smallest hole that has |
| AllocatorSpec.AllocAddsOneBlock | src/platform/unix/memory/static/heap_allocator/heap.c:83-107 | the blocks in use after an allocation are those before and exactly one more, of that hole and at the returned pointer: of m bytes if the rest is split off, which it is iff it exceeds 36 bytes, else of the whole hole; from the pointer on it has the bytes asked for in front of its footer |
| AllocatorSpec.FreeDropsOneBlock | src/platform/unix/memory/static/heap_allocator/heap.c:112-174 | the blocks in use after a free are those before without the one at the pointer |
| AllocatorSpec.FreeDropsPointer | src/platform/unix/memory/static/heap_allocator/heap.c:112-174 | freeing p takes exactly p from the pointers in use |
| AllocatorSpec.NoLiveMeansInitial | src/platform/unix/memory/static/heap_allocator/heap.c:136-174 | an arena with nothing in use is the initial arena: one hole of the initial size in its bin |
| AllocatorSpec.RunBackToInitial | src/platform/unix/memory/static/heap_allocator/heap.c:16-176 | any run after which nothing is in use has restored the initial arena |
| AllocatorSpec.FreeAllInAnyOrder | src/platform/unix/memory/static/heap_allocator/heap.c:112-176 | freeing all pointers in use, once each and in any order, is legal and restores the initial arena |
| ArenaSpec.FootprintIsArena | src/platform/unix/memory/static/heap_allocator/heap.c:83-90 | the sizes and overheads of the blocks always add up to the size of the arena |
| ArenaSpec.TilesDisjoint | src/platform/unix/memory/static/heap_allocator/heap.c:83-96 | two different blocks of the arena do not overlap |
| ArenaSpec.SpliceTiles | src/platform/unix/memory/static/heap_allocator/heap.c:83-96 | replacing one or two blocks by others over the same range, as splitting and merging do, keeps the tiling |
| BinLists.BinRange | src/platform/unix/memory/static/heap_allocator/heap.c:179-193 | the first bin holds sizes below 8, bin k those from 2^(k+2) up to 2^(k+3), the ninth all from 1024 on |
| BinLists.BinIndexMonotone | src/platform/unix/memory/static/heap_allocator/heap.c:179-193 | a larger size never maps to a smaller bin |
| BinLists.FirstFitIsBestFit | src/platform/unix/memory/static/heap_allocator/llist.c:89-119 | in a sorted bin the first block that fits is a smallest one that fits, and is found if any fits |
| BinLists.InsertFacts | src/platform/unix/memory/static/heap_allocator/llist.c:3-51 | insertion behind all blocks no larger keeps a bin sorted and duplicate-free and adds exactly the new block |
| BinLists.RemoveFacts | src/platform/unix/memory/static/heap_allocator/llist.c:53-87 | removal keeps a bin sorted and duplicate-free and takes exactly the block with that address |
| BinLists.InsertRemoveCommute | src/platform/unix/memory/static/heap_allocator/llist.c:3-87 | inserting one block and removing another commute, so linking the split tail before unlinking the block handed out makes no difference |
| BinOps.AddNode | src/platform/unix/memory/static/heap_allocator/llist.c:3-51 | the pointer writes turn a linked list into the list with the node at its sorted place; prev is right for every node but the head; nothing but the links of these nodes changes, and no other bin |
| BinOps.RemoveNode | src/platform/unix/memory/static/heap_allocator/llist.c:53-87 | the pointer writes turn a linked list into the list without the node, although a new head keeps its stale prev; nothing but links changes, and no other bin |
| BinOps.FindPlace | src/platform/unix/memory/static/heap_allocator/llist.c:27-30 | the walk stops with the last node no larger and the first larger one |
| BinOps.GetBestFit | src/platform/unix/memory/static/heap_allocator/llist.c:89-119 | the walk over the links finds the first node that covers the size, NULL iff there is none |
| BinOps.GetBinIndex | src/platform/unix/memory/static/heap_allocator/heap.c:179-193 | the shift loop computes the bin: floor of log2, less two, capped at the last bin |
| Heap.Heap.constructor | src/platform/unix/memory/static/heap_allocator/heap.c:16-40 | a heap on any memory range is valid and holds the initial arena; nothing outside the range changes |
| Heap.Heap.InitHeap | src/platform/unix/memory/static/heap_allocator/heap.c:24-36 | the header, footer and bin written for the first block lay out the initial arena in memory |
| Heap.Heap.HeapAlloc | src/platform/unix/memory/static/heap_allocator/heap.c:42-110 | on a valid heap the bytes after the call lay out exactly the arena of the specified allocation and no byte of a block in use changes; the result is the start of a new payload of at least the bytes asked for, in front of its footer, or NULL iff no hole has as many bytes, rounded up to four |
| Heap.Heap.FindFit | src/platform/unix/memory/static/heap_allocator/heap.c:59-81 | the upward search over the bins finds the first node that fits in the first bin that has one |
| Heap.Heap.SplitFound | src/platform/unix/memory/static/heap_allocator/heap.c:83-96 | the split writes the tail, its footer and its links and shrinks the front, while the hole is still in its bin under the old size |
| Heap.Heap.Grant | src/platform/unix/memory/static/heap_allocator/heap.c:98-103 | marking the block used and unlinking it from the bin the search stopped at touches no other block |
| Heap.Heap.HeapFree | src/platform/unix/memory/static/heap_allocator/heap.c:112-176 | on a valid heap the bytes after the call lay out exactly the arena of the specified free, and no byte of another block in use changes |
| Heap.Heap.ReadNeighbours | src/platform/unix/memory/static/heap_allocator/heap.c:131-147 | what is read through the footer before a block and the header after it are its neighbours, and the arena ends are recognised |
| Heap.Heap.MergePrev | src/platform/unix/memory/static/heap_allocator/heap.c:149-158 | absorbing a block into the hole before it yields the merged block in memory and keeps all other blocks in use |
| Heap.Heap.MergeNext | src/platform/unix/memory/static/heap_allocator/heap.c:160-172 | absorbing the hole after a block, wiping its header and footer, yields the merged block and keeps all other blocks in use |
| Heap.Heap.UserWrite | src/platform/unix/memory/static/heap_allocator/heap.c:105-107 | the owner of a block may write any byte of its payload without disturbing the heap |
| Heap.PayloadClear | src/platform/unix/memory/static/heap_allocator/heap.c:83-107 | payloads in use are pairwise disjoint, inside the arena, and clear of every footer, of every hole and size word and of the whole header of every hole |
| Heap.PayloadWrite | src/platform/unix/memory/static/heap_allocator/heap.c:83-107 | whatever is written into the payload of a block in use, the bytes still lay out the same arena |
| MqttWire.ReadBack | src/sakura_mqtt_core.c:1703-1743 | the remaining length that was written is read back with the number of bytes it took, whatever follows, for 0 to 268435455 |
| MqttWire.PacketLenExact | src/sakura_mqtt_pack.c:451-467 | the announced length of a packet is the length written, for every legal remaining length, iff it is not 2097151 |
| MqttWire.ReadMessagePrefix | src/sakura_mqtt_core.c:1520-1572 | a verdict other than partial does not depend on the bytes behind the packet |
| MqttWire.ProperPrefixIsPartial | src/sakura_mqtt_core.c:1520-1572 | every proper prefix of a well-formed packet is reported as partial, never as malformed or whole |
| MqttWire.PacketWellFormed | src/sakura_mqtt_pack.c:655-694 | a header byte, the minimal length field and a body make a packet that is read as a whole, with that body |
| MqttWire.HeaderFields | src/sakura_mqtt_pack.c:38-102 | type, dup, QoS and retain are read back from the header byte |
| MqttWire.PublishRoundTrip | src/sakura_mqtt_core.c:1801-1863 | an encoded PUBLISH is read back with the same topic, payload, id, QoS, dup and retain iff QoS is above 0 or the payload has two bytes; otherwise it is rejected |
| MqttWire.SetDupIsDuplicate | src/sakura_mqtt_core.c:2085-2092 | setting the bit in the stored packet gives the encoding of the same publication with dup set |
| MqttWire.SetDupKeepsId | src/sakura_mqtt_core.c:2085-2092 | it changes neither the extent nor the type nor the message id of any packet |
| MqttReceive.HandleConserves | src/sakura_mqtt_core.c:1156-1230 | the packets dispatched by one pass followed by the bytes it leaves are the bytes it found |
| MqttReceive.RunConserves | src/sakura_mqtt_core.c:1156-1230 | over any run of chunks and passes that never discards the buffer, packets dispatched followed by bytes buffered are the bytes received |
| MqttReceive.VerdictDecides | src/sakura_mqtt_core.c:1195-1225 | behind any packet the verdict on it decides: -1 drops what is buffered, another negative value keeps it and ends the pass, else the pass goes on |
| MqttReceive.HandleStream | src/sakura_mqtt_core.c:1170-1215 | a pass over the beginning of a stream of well-formed packets dispatches leading packets of it, all the complete ones unless a verdict stops it |
| MqttReceive.RunStream | src/sakura_mqtt_core.c:1156-1230 | however such a stream is cut into chunks that fit, and however passes are interleaved, the packets dispatched are its leading packets, once each and in order |
| MqttReceive.ChunkingDoesNotMatter | src/sakura_mqtt_net.c:147-192 | after a last pass the packets dispatched are exactly those completed by the bytes received: the outcome is a function of the bytes alone |
| MqttReceiver.ScanIsRead | src/sakura_mqtt_core.c:1703-1743 | the accumulating loop with its growing multiplier reads the same value as the recursive definition |
| MqttReceive.AppendIsPrefix | src/sakura_mqtt_net.c:147-192 | what is buffered after a chunk is as much as fits of the old bytes and the chunk, or of the chunk alone if the buffer was full |
| MqttReceiver.Receiver.OnRecv | src/sakura_mqtt_net.c:147-192 | a chunk is appended behind the buffered bytes, a full buffer being emptied first and what does not fit being cut off; an empty one is refused |
| MqttReceiver.Receiver.ReadRemainingLength | src/sakura_mqtt_core.c:1703-1743 | the loop over the buffer gives the verdict and value of the specification, for every content |
| MqttReceiver.Receiver.ReadMessageAt | src/sakura_mqtt_core.c:1520-1572 | the packet at an offset of the buffer is classified as partial, malformed or whole as specified |
| MqttReceiver.Receiver.HandleMessages | src/sakura_mqtt_core.c:1156-1230 | one pass in place, for any verdicts, dispatches the specified packets and leaves the specified rest at the front of the buffer |
| MqttReceiver.Receiver.ShiftTopic | src/sakura_mqtt_core.c:2202-2233 | moving the topic down by one byte moves exactly the topic |
| MqttReceiver.Receiver.TerminateTopic | src/sakura_mqtt_core.c:2202-2233 | after the in-place termination the topic is NUL-terminated and equal to the parsed topic, the payload is untouched, and nothing outside the body changes |
| MqttFrames.HeaderRoundTrip | src/sakura_mqtt_core.c:579-622 | tag, type and length of the internal frame header are read back as written |
| MqttFrames.FlattenInjective | src/sakura_mqtt_core.c:579-622 | the bytes of a buffer determine its frames |
| MqttFrames.RemoveTagCounts | src/sakura_mqtt_core.c:2015-2043 | removal takes exactly one frame of that tracker and no other frame |
| MqttFrameBuffer.FrameBuffer.Append | src/sakura_mqtt_core.c:934-954 | a frame that fits is put behind the others and the buffer stays a concatenation of whole frames |
| MqttFrameBuffer.FrameBuffer.ParseHeader | src/sakura_mqtt_core.c:606-622 | the header at a frame boundary yields tracker, type and length of that frame |
| MqttFrameBuffer.FrameBuffer.Front | src/sakura_mqtt_net.c:235-287 | what is handed to the socket is the packet of the first frame |
| MqttFrameBuffer.FrameBuffer.DropFront | src/sakura_mqtt_net.c:24-70 | moving the rest down drops exactly the first frame |
| MqttFrameBuffer.FrameBuffer.Find | src/sakura_mqtt_core.c:2291-2342 | the walk from frame to frame finds the first frame of a tracker with its offset and length, or reports that there is none |
| MqttFrameBuffer.FrameBuffer.RemoveAt | src/sakura_mqtt_core.c:2015-2043 | the frame at the offset is removed from the frames; as many bytes are moved as for a frame at the front, and every byte from the end of that write on is untouched |
| MqttFrameBuffer.FrameBuffer.RemoveByTag | src/sakura_mqtt_core.c:2015-2043 | the first frame of a tracker is removed, if there is one |
| MqttFrameBuffer.FrameBuffer.MarkDup | src/sakura_mqtt_core.c:2085-2092 | the dup bit is set in the stored packet of one frame and nothing else changes |
| Memmove.MoveDown | src/sakura_mqtt_core.c:2035-2040 | a move of bytes towards the front, in place, gives every byte of the target the byte it had n places further on and no other byte a new value |
| MqttFrameBuffer.RemovalWritesInside | src/sakura_mqtt_core.c:2035-2040 | the removal of a backup frame leaves whatever lies behind the buffer untouched iff the offset of the frame is at most the free space and the length of the frame |
| MqttFrameBuffer.RemovalReadsInside | src/sakura_mqtt_core.c:2035-2040 | no byte of the buffer after the removal depends on what lies behind the buffer iff the offset of the frame and the length of all frames do not exceed the size |
| MqttFrameBuffer.RemovalLeavesFullBuffer | src/sakura_mqtt_core.c:2291-2342 | in a full buffer, removing any frame that is shorter than what precedes it overwrites bytes behind the buffer |
| MqttFrameBuffer.FrameBuffer.RemoveQueued | src/sakura_mqtt_core.c:1955-2013 | if the scan comes to an end, the bytes left in the send buffer are those the walk keeps of the bytes before, and the frames of all other trackers if the removal is exact |
| MqttScan.PacketLength | src/sakura_mqtt_core.c:2806-2830 | the length loop reads every byte up to the first without the continuation bit, however many, and adds up their value modulo 2^32 |
| MqttScan.HeaderAt | src/sakura_mqtt_core.c:2281-2289 | a header is accepted iff its tag and type are in range and its whole length, six added modulo 2^32, is no more than what is left |
| MqttScan.ScanIsLoop | src/sakura_mqtt_core.c:1978-2010 | the scan has an outcome iff the loop ends, which is then after no more rounds than bytes; otherwise it goes round for ever, at an accepted header of length 0 |
| MqttRemoval.RemoveSent | src/sakura_mqtt_core.c:1955-2013 | the scan of the send buffer for a tracker, in place, for every content of the buffer and of the memory behind it: it ends iff the walk ends which moves nothing and reads only the bytes before the call, and then leaves exactly the bytes that walk keeps |
| MqttRemoval.ScanIsKept | src/sakura_mqtt_core.c:1978-2010 | from every point on, and after every removal so far, the scan in place and the walk agree in whether there is an end and in the bytes that are left from there on, and those before are not touched |
| MqttRemoval.EndlessIff | src/sakura_mqtt_core.c:1978-2010 | the walk has no end iff it comes to an accepted header whose length is 0 in 32 bits |
| MqttExact.OneExactIff | src/sakura_mqtt_core.c:1978-2010 | whatever is behind the buffer: one queued message of the tracker is taken out, and no other byte, iff the walk over the bytes behind it, from as far on as it was long and then over the copy of their end, comes to no header of the tracker and to none of length 0 |
| MqttExact.LongExact | src/sakura_mqtt_core.c:2000-2003 | so it is if the message is at least as long as all that follows it |
| MqttExact.AlignedExact | src/sakura_mqtt_core.c:2000-2009 | so it is if the message is as long as some messages at the beginning of what follows and as some at the end |
| MqttExact.SkippedStays | src/sakura_mqtt_core.c:2008-2009 | with any number of messages of the tracker, whatever is behind the buffer: one that starts before the place where the scan goes on is passed over, so the removal is not exact if a message of another tracker follows |
| MqttEven.EvenExactIff | src/sakura_mqtt_core.c:1978-2010 | with any number of messages of the tracker, all messages being of one length, and whatever is behind the buffer: exactly they are taken out iff each is directly followed by one of another tracker or they stand together at the end |
| MqttCut.NextMessageIsCut | src/sakura_mqtt_core.c:1993-2009 | a session, tick by tick, with three encoded publications queued behind late packets: the tick that releases the tracker of the second cuts the third, whose payload starts where the scan goes on, whatever is behind the buffer |
| MqttCut.ReleaseNeverEnds | src/sakura_mqtt_core.c:2281-2289 | the same session with another payload of seven bytes: the scan of that tick goes round for ever, whatever is behind the buffer |
| MqttCut.LongFieldStops | src/sakura_mqtt_core.c:2806-2830 | with a payload whose length field takes five bytes and is too large the third publication stays whole |
| MqttPatience.PatientSession | src/sakura_mqtt_core.c:110-161 | in every session in which no connect is refused after its packet has been queued, every release ends and cuts no message, trackers and backup buffer agree, and at most a CONNECT is left in the send buffer |
| MqttAgreement.NextGood | src/sakura_mqtt_core.c:934-2152 | every legal step keeps the engine invariant: frames well-formed and within their buffers, counts within bounds, every backup frame owned; and it keeps agreement unless a released flagged tracker is about to be revived |
| MqttAgreement.BackupIsOwned | src/sakura_mqtt_core.c:934-977 | in every reachable state each backup frame belongs to a tracker in use that is flagged and carries its message id, no tracker has two, and free or unflagged trackers have none |
| MqttAgreement.RequestPacketId | src/sakura_mqtt_core.c:979-1154 | the packet built for a request carries the id drawn for it |
| MqttAgreement.TrackersAgreeWithBackup | src/sakura_mqtt_core.c:1612-1629 | after every legal run in which no frame of a released flagged tracker comes up for sending, a tracker in use is flagged iff exactly one backup frame is tagged with it |
| MqttAgreement.SendAgreesIff | src/sakura_mqtt_net.c:300-335 | a send keeps that agreement iff the first frame does not belong to a tracker that is free, flagged and still expects an answer |
| MqttAgreement.StepsAgreeIff | src/sakura_mqtt_core.c:934-2152 | in any good state in agreement, everything that may happen next keeps the agreement iff no such frame is first in the send buffer |
| MqttAgreement.RunsAgreeIff | src/sakura_mqtt_core.c:1612-1629 | over whole runs: from every state of a legal run everything that may happen next leads to agreement, iff in no state of the run such a frame is first in the send buffer |
| MqttStale.ReleasedTrackerRevives | src/sakura_mqtt_core.c:1574-1633 | a session, tick by tick, after which a tracker is in use and flagged while the backup buffer is empty: five refused connects make every packet leave late, so that the tick that releases the tracker also sends its last copy |
| MqttSlots.NextApart | src/sakura_mqtt_core.c:1232-1304 | a step that neither takes tracker i nor is about it changes of i at most its state by a send, and neither enqueues nor stores frames of i |
| MqttQueue.SendingIsFifo | src/sakura_mqtt_net.c:24-70 | in every reachable state of the engine the send buffer holds whole frames within its size, and frames handed over followed by frames queued are the frames enqueued, in order; a subsequence of them if a timeout, disconnect or reset dropped some |
| MqttQos2.PubrecReleases | src/sakura_mqtt_core.c:2514-2530 | a PUBREC that matches a tracker leaves it awaiting PUBCOMP, or without room still awaiting PUBREC but with its backup gone, and enqueues nothing but PUBREL for it |
| MqttQos2.NextKeeps | src/sakura_mqtt_core.c:1635-1669 | from then on no step that leaves the tracker to its exchange enqueues anything but PUBREL for it |
| MqttQos2.NoPublishAfterPubrec | src/sakura_mqtt_core.c:1865-1905 | over all runs: after a matching PUBREC every frame enqueued for the exchange is PUBREL, until the tracker is taken for another exchange |
| MqttQos2.NoPublishLeavesAfterPubrel | src/sakura_mqtt_core.c:2109-2152 | over all runs: of the frames of that tracker handed to the socket, those enqueued before the PUBREC leave first and after them only PUBREL |
| MqttInbound.FirstPublish | src/sakura_mqtt_core.c:2235-2279 | a QoS 2 PUBLISH without dup is reported, and the first free tracker then holds its exchange; if none is free, no tracker changes beyond that of the frame that leaves |
| MqttInbound.RetransmissionAnswered | src/sakura_mqtt_core.c:1851-1859 | a retransmission for a held exchange is not reported, keeps the exchange, and is answered with PUBREC iff the send buffer has room |
| MqttInbound.ReportedOnce | src/sakura_mqtt_core.c:1801-1863 | over all runs until PUBREL, expiry or end of the connection, no retransmission with that id is reported |
| MqttRetry.VisitSpends | src/sakura_mqtt_core.c:1574-1633 | each timeout of a tracker frees it or uses up one of its remaining timeouts, and frames enqueued plus redeliveries left never grow |
| MqttRetry.RunSpends | src/sakura_mqtt_core.c:1232-1304 | the same over any run in which nothing answers the tracker |
| MqttRetry.RetransmissionIsBounded | src/sakura_mqtt_core.c:1922-1953 | for every configured count below 16 and in every reachable state, the redelivery count is within it and has not carried into the flag; without an answer at most that many frames are resent, and the tracker is freed by the timeout after the last |
| MqttAnswers.AcceptedIff | src/sakura_mqtt_core.c:317-440 | a request is accepted iff the client is connected, one of the 24 trackers is free and the packet and six bytes fit the send buffer; otherwise nothing is queued, no tracker changes, and the code tells which |
| MqttAnswers.RequestAccepted | src/sakura_mqtt_core.c:979-1154 | the packet of an accepted request goes, under the next id, behind all that was enqueued before, for a free tracker that then waits for the packet that answers it |
| MqttAnswers.RequestIsAnswered | src/sakura_mqtt_core.c:1865-1905 | for a request accepted in any reachable state, whatever happens elsewhere after it: as long as its tracker is in use, the packet 40, 90 or B0 (hexadecimal) with its id ends the request, freeing the tracker and dropping every stored copy, iff no earlier tracker waits for the same |
| MqttAnswers.OtherAnswersDoNotEnd | src/sakura_mqtt_core.c:2175-2200 | an acknowledgement of any other type under that id does not end it and leaves its tracker as it was, but for a frame of it that may leave |
| MqttAnswers.Qos2IsAnswered | src/sakura_mqtt_core.c:2514-2580 | a publication of QoS 2 is ended by 50 and then 70 with its id: the first queues 62 02 with the id for its tracker and drops the stored packet, the second frees the tracker |
| MqttAnswers.Qos0IsOver | src/sakura_mqtt_net.c:300-335 | a publication of QoS 0 is over when its packet leaves |
| MqttAnswers.UnknownAnswer | src/sakura_mqtt_core.c:1865-1905 | an acknowledgement that no tracker waits for changes nothing and gives the invalid-argument code |
| MqttAnswers.OtherPackets | src/sakura_mqtt_core.c:1439-1509 | PINGRESP is taken; any type a server does not send, CONNACK or an acknowledgement that is too short, and a PUBLISH of QoS 3 are errors; none of them changes the engine |
| MqttAnswers.IdsRepeat | src/sakura_mqtt_core.c:1421-1437 | the ids of requests are 1 to 65535 and two of them are equal iff the requests are a multiple of 65535 apart |
| MqttDelivery.PublishIsReported | src/sakura_mqtt_core.c:1801-1863 | in any state an inbound PUBLISH that is long enough is reported with its topic, payload, id, QoS and dup, unless it retransmits an exchange that is held; with ten bytes of room it is answered by nothing, 40 02 or 50 02 with its id, the last for the tracker of its exchange or the first free one, which holds it from then on |
| MqttDelivery.ShortPayloadIsRefused | src/sakura_mqtt_core.c:1801-1863 | a PUBLISH of QoS 0 with less than two bytes of payload changes nothing and is an error |
| MqttDelivery.PubrelAnswered | src/sakura_mqtt_core.c:2532-2557 | the packet 62 02 with the id of a held exchange ends it and is answered by 70 02 with the id where there is room |
| MqttLife.ConnectLeaves | src/sakura_mqtt_core.c:852-888 | CONNECT leaves when TCP is up, alone and once, and its deadline starts then |
| MqttLife.ConnectFails | src/sakura_mqtt_client.c:1290-1355 | a connect without room changes nothing; if TCP does not start, CONNECT stays queued, its tracker waits, and the client stays unconnected |
| MqttLife.TcpUpElse | src/sakura_mqtt_core.c:852-888 | when TCP is up and the socket fails, CONNECT leaves the queue and the phase stays; a deadline that is set is not moved; in other phases nothing happens |
| MqttLife.ConnackDecides | src/sakura_mqtt_core.c:1745-1799 | the packet 20 02 with a flag and a code connects a client that waits for it iff the code is 0, ends the CONNECT either way, and is an error at any other time |
| MqttLife.NothingBeforeDeadline | src/sakura_mqtt_core.c:1284-1292 | a tracker that waits is left alone until its deadline has passed |
| MqttLife.FinishedIsFreed | src/sakura_mqtt_core.c:1257-1283 | a finished tracker is freed by the next visit; with DISCONNECT the connection ends |
| MqttLife.RequestIsStored | src/sakura_mqtt_core.c:934-977 | an accepted request gets its deadline, and its packet is stored, once, iff the backup buffer has room |
| MqttLife.RepeatedWhenDue | src/sakura_mqtt_core.c:2045-2107 | past the deadline a stored request that was sent is sent again: the same bytes, but for the dup bit of a PUBLISH, which is set; the tracker gets a new deadline and has one attempt less |
| MqttLife.PublicationRepeated | src/sakura_mqtt_core.c:2085-2092 | what is sent again for a publication is the encoding of the same message as a duplicate |
| MqttLife.PubrelRepeated | src/sakura_mqtt_core.c:1635-1669 | past its deadline PUBREL is sent again under the same id |
| MqttLife.QueuedIsCounted | src/sakura_mqtt_core.c:1922-1953 | a message still queued past its deadline uses up an attempt and is not queued again |
| MqttLife.PostponedWithoutRoom | src/sakura_mqtt_core.c:2076-2086 | without room a repetition uses up its attempt and is postponed |
| MqttLife.PostponedIsSent | src/sakura_mqtt_core.c:1294-1300 | a postponed repetition is made up for before the next deadline and not counted again; the last one allowed is not |
| MqttLife.GivenUp | src/sakura_mqtt_core.c:1600-1629 | past its deadline a tracker that may not be repeated is freed and nothing is sent; with CONNECT the connection is given up |
| MqttLife.PingAfterInterval | src/sakura_mqtt_core.c:1306-1337 | nothing is done within the interval; after it C0 00 is queued, unless the ping before is unanswered: then the connection is given up |
| MqttLife.PingWithoutRoom | src/sakura_mqtt_core.c:1320-1331 | a ping that finds no room counts as sent, so that the next interval gives the connection up |
| MqttLife.IdleTick | src/sakura_mqtt_core.c:890-932 | the tick of a connected client with nothing to do pings after the interval, fails if a ping is unanswered, and takes D0 00 as the answer |
| MqttLife.ArrivalPutsOffPing | src/sakura_mqtt_net.c:147-192 | what arrives puts off the ping by an interval |
| MqttLife.ClockRestarts | src/sakura_mqtt_client.c:1290-1355 | of the calls only starting to connect, and TCP coming up, restart the clock of the keepalive |
| MqttLife.SendFailureStops | src/sakura_mqtt_core.c:890-932 | a poll whose send fails does nothing else |
| MqttLife.TcpFails | src/sakura_mqtt_client.c:716-754 | a tick changes nothing and reports an error while TCP fails to come up in time, or the connection has failed |
| MqttLife.ResetForgets | src/sakura_mqtt_core.c:788-831 | a reset frees all trackers and leaves nothing stored, buffered or unanswered |
| MqttLife.DisconnectEarly | src/sakura_mqtt_client.c:1654-1688 | before it is connected a client is turned away without a packet; unconnected, or a second time, disconnecting is refused |
| MqttLife.DisconnectEnds | src/sakura_mqtt_core.c:234-309 | from a reachable connected state: E0 00 leaves, behind the one frame that is kept if there is one, and the tick after disconnecting ends the connection iff a frame was kept or the application asked to be told |
| MqttLife.StaysDisconnecting | src/sakura_mqtt_core.c:1257-1283 | otherwise the client stays disconnecting over any number of ticks in which nothing arrives |
| MqttClient.Client.constructor | src/sakura_mqtt_client.c:385-501 | a new client is the start state of the engine |
| MqttClient.Client.GetFree | src/sakura_mqtt_core.c:1395-1419 | the loop finds the first free tracker, or none |
| MqttClient.Client.GetMatched | src/sakura_mqtt_core.c:2175-2200 | the loop finds the first tracker in use that expects this type under this id, or none |
| MqttClient.Client.UpdateMsgState | src/sakura_mqtt_net.c:300-335 | a frame that has left marks its tracker as sent, or finishes it if it expects nothing |
| MqttClient.Client.TrySendOnce | src/sakura_mqtt_net.c:24-70 | one send in place is the send of the engine: the first frame goes to the socket and leaves the buffer |
| MqttClient.Client.UpdateMessageState | src/sakura_mqtt_core.c:934-977 | a packet is queued, backed up if it has an id and there is room, and its tracker set, in place, as the engine says |
| MqttClient.Client.GenMessageId | src/sakura_mqtt_core.c:1421-1437 | ids run from 1 to 65535 and round |
| MqttClient.Client.PackRequest | src/sakura_mqtt_core.c:979-1154 | packing PUBLISH, SUBSCRIBE or UNSUBSCRIBE in place is the step of the engine, error codes included |
| MqttClient.Client.Request | src/sakura_mqtt_core.c:317-440 | the three requests are steps of the engine |
| MqttClient.Client.SendCommonAck | src/sakura_mqtt_core.c:2109-2152 | an acknowledgement is queued for a tracker or for none, or left out without room, as the engine says |
| MqttClient.Client.HandleAckByType | src/sakura_mqtt_core.c:2442-2581 | an acknowledgement finishes its tracker or goes on to PUBREL or PUBCOMP, as the engine says |
| MqttClient.Client.HandleSimpleAck | src/sakura_mqtt_core.c:1865-1905 | a matching acknowledgement that succeeds also discards the backup and the flag |
| MqttClient.Client.TrackInbound | src/sakura_mqtt_core.c:2235-2279 | an inbound QoS 2 exchange reuses its tracker or takes a free one, if any |
| MqttClient.Client.HandleInbound | src/sakura_mqtt_core.c:1801-1863 | an inbound PUBLISH is reported unless it is a known duplicate, and answered by its QoS |
| MqttClient.Client.HandleConnackCode | src/sakura_mqtt_core.c:1745-1799 | CONNACK is accepted only while connecting, and connects iff its code is 0 |
| MqttClient.Client.DispatchPacket | src/sakura_mqtt_core.c:1439-1509 | a well-formed packet has the effect and the verdict of the dispatch of the engine |
| MqttClient.Client.SendBackupMessage | src/sakura_mqtt_core.c:2045-2107 | the stored frame is resent with dup set in place, or given up if it is missing, or postponed without room |
| MqttClient.Client.DoRedeliverMessage | src/sakura_mqtt_core.c:1635-1669 | what is redelivered depends on what the tracker expects, as the engine says |
| MqttClient.Client.RedeliverMessage | src/sakura_mqtt_core.c:1922-1953 | one attempt is counted, and made unless the message is still queued |
| MqttClient.Client.ReleaseTracker | src/sakura_mqtt_core.c:1600-1629 | unless the scan goes round for ever, an expired tracker is freed and its backup dropped, and the send buffer is left with the bytes the scan leaves; all is as the engine says if that removal is exact |
| MqttClient.Client.HandleTimeoutOf | src/sakura_mqtt_core.c:1574-1633 | a timeout redelivers as the engine says, or releases with whatever the scan then does; as the engine says if that removal is exact |
| MqttClient.Client.Visit | src/sakura_mqtt_core.c:1232-1304 | what the loop does for one tracker is the visit of the engine, a release being what the scan makes of it |
| MqttClient.Client.LoopOnce | src/sakura_mqtt_core.c:1232-1304 | one pass over the trackers, no release of which cuts a queued message, is the sweep of the engine, stopping at the first failure |
| MqttClient.Client.ConnectClient | src/sakura_mqtt_client.c:1290-1355 | connecting takes tracker 0 and queues CONNECT, also when TCP then fails to start |
| MqttClient.Client.HandleTcpConnected | src/sakura_mqtt_core.c:852-888 | the deadline of CONNECT starts when TCP is up, and one send follows |
| MqttClient.Client.ClearAll | src/sakura_mqtt_core.c:448-519 | clearing frees all trackers and empties both buffers but for a first frame that is being sent, which loses its tracker |
| MqttClient.Client.DisconnectClient | src/sakura_mqtt_client.c:1654-1688 | disconnecting clears everything and sends DISCONNECT only when connected |
| MqttClient.Client.ResetClient | src/sakura_mqtt_core.c:788-831 | a reset clears trackers and frame buffers and returns to the unconnected phase |
| MqttClient.Client.SendPing | src/sakura_mqtt_core.c:1671-1701 | PINGREQ is queued for no tracker and sent, or ignored without room |
| MqttClient.DispatchIsStep | src/sakura_mqtt_core.c:1439-1509 | dispatching a packet is at most one step of the state machine, so the theorems over runs cover it |
| MqttClient.SweepIsRun | src/sakura_mqtt_core.c:1232-1304 | a pass over the trackers is a run of visits, all 24 unless one fails |
| MqttTick.WholeIsWellFormed | src/sakura_mqtt_core.c:1520-1572 | what is read as a whole packet is a well-formed packet, so the dispatcher always gets one |
| MqttTick.FeedIsHandle | src/sakura_mqtt_core.c:1156-1230 | a pass with the real dispatcher dispatches and keeps what the receive pass does under the verdicts of that dispatcher |
| MqttTick.FeedIsRun | src/sakura_mqtt_core.c:1170-1215 | whatever bytes have arrived, a pass over them is a legal run of the engine |
| MqttTick.PollIsRun | src/sakura_mqtt_core.c:890-932 | one poll is a legal run of the engine: one send, then inbound packets, then visits to the trackers from the first on, then at most one ping |
| MqttTick.PassIsRun | src/sakura_mqtt_client.c:716-754 | one tick, in any phase of the connection, is a legal run of the engine |
| MqttTick.SessionIsRun | src/sakura_mqtt_core.c:110-161 | every session of API calls, arriving chunks and ticks is a legal run of the engine, so that all theorems over runs hold of sessions |
| MqttStream.SessionReceives | src/sakura_mqtt_core.c:1156-1230 | the receive buffer and the packets dispatched in a session are those of a run of the receiver under the verdicts of the dispatcher |
| MqttStream.StreamInOrder | src/sakura_mqtt_core.c:1156-1230 | a session that receives the beginning of a stream of well-formed packets, however cut, dispatches leading packets of it to the engine, once each and in order, and buffers the rest of what it received, unless the dispatcher refuses one with an error |
| MqttSession.Connection.constructor | src/sakura_mqtt_client.c:385-501 | a new client with its receiver and clock is the start of a session |
| MqttSession.Connection.OnRecv | src/sakura_mqtt_net.c:147-192 | a chunk that arrives is buffered and restarts the keepalive clock; an empty one is refused |
| MqttSession.Connection.HandleMessages | src/sakura_mqtt_core.c:1156-1230 | the loop over the receive buffer hands every whole packet to the dispatcher, stops at its error, and leaves engine, buffer and outstanding ping as specified |
| MqttSession.Connection.KeepAlive | src/sakura_mqtt_core.c:1306-1337 | after an interval without traffic a ping is sent, or the connection is given up if the last one is unanswered |
| MqttSession.Connection.PollAllEvent | src/sakura_mqtt_core.c:890-932 | send, dispatch, visit the trackers, keep alive: the poll in place, if it cuts no queued message, is the specified one, stopping at the first failure |
| MqttSession.Connection.TickClient | src/sakura_mqtt_core.c:110-161 | what a tick does by the phase of the connection, in place |
| MqttSession.Connection.Tick | src/sakura_mqtt_client.c:716-754 | one tick in place, if it cuts no queued message, is the specified tick with its return code |
| MqttSession.Connection.Reset | src/sakura_mqtt_core.c:788-831 | a reset also empties the receive buffer and forgets the ping |
| MqttSession.Connection.Disconnect | src/sakura_mqtt_client.c:1654-1688 | disconnecting while connected also empties the receive buffer |
| MqttLayout.RemLenBytes | src/sakura_mqtt_pack.c:655-694 | the length field is the one to four bytes of section 2.2.3: seven bits a byte, the least significant first, the high bit set in all but the last |
| MqttLayout.LengthIsRead | src/sakura_mqtt_core.c:1703-1743 | the reader gives the value of one to four such bytes, also of a longer form than needed, waits as long as all bytes have the high bit, and gives up after four with it |
| MqttLayout.AckBytes | src/sakura_mqtt_pack.c:345-390 | the acknowledgements of a publication are 40, 50, 62 or 70, the length 2 and the id with its high byte first |
| MqttLayout.EmptyBytes | src/sakura_mqtt_pack.c:418-449 | PINGREQ is C0 00 and DISCONNECT E0 00 |
| MqttLayout.PublishBytes | src/sakura_mqtt_pack.c:38-102 | PUBLISH is 30 with dup, QoS and retain added, the length, the topic behind its length, the id above QoS 0, and the payload |
| MqttLayout.PublicationBytes | src/sakura_mqtt_core.c:979-1037 | a publication of the client is such a packet, first sent, of the very topic and payload |
| MqttLayout.SubscribeBytes | src/sakura_mqtt_pack.c:208-266 | SUBSCRIBE is 82, the length, the id, and bytes in which a server reads exactly the filters and QoS asked for |
| MqttLayout.UnsubscribeBytes | src/sakura_mqtt_pack.c:279-334 | UNSUBSCRIBE is A2, the length, the id, and bytes in which a server reads exactly the names |
| MqttLayout.ConnectSays | src/sakura_mqtt_pack.c:140-195 | a server that reads CONNECT by section 3.1 finds the protocol, flags, keepalive, client identifier, will, user name and password it was set up with |
| MqttPack.WriteRemainingLen | src/sakura_mqtt_pack.c:655-694 | the loop writes exactly the 1 to 4 bytes of the minimal encoding and returns their number |
| MqttPack.WritePaddedLen | src/sakura_mqtt_core.c:2832-2876 | the length field of the internal header is always exactly four bytes |
| MqttPack.PaddedRoundTrip | src/sakura_mqtt_core.c:2806-2830 | the four-byte field is read back, for 0 to 268435455 |
| MqttPack.AnnouncedLength | src/sakura_mqtt_pack.c:451-467 | the announced length always suffices for the packet, and is exact iff the remaining length is not 2097151 |
| MqttPack.EncodePublish | src/sakura_mqtt_pack.c:38-102 | either the packet does not fit, -1 is returned and the buffer is unchanged, or exactly the bytes of the PUBLISH are written within buflen and nothing else |
| MqttPack.EncodeAck | src/sakura_mqtt_pack.c:345-390 | exactly the four bytes of the acknowledgement, or -1 and no change |
| MqttPack.EncodeZero | src/sakura_mqtt_pack.c:418-449 | exactly the two bytes of a packet without body, or -1 and no change |
| MqttPack.EncodeSubscribe | src/sakura_mqtt_pack.c:208-266 | as EncodePublish, for an id and any list of topic filters, absent ones included |
| MqttPack.EncodeUnsubscribe | src/sakura_mqtt_pack.c:279-334 | as EncodePublish, for an id and any list of names, refused if the first is absent |
| MqttPack.PresentIsWritten | src/sakura_mqtt_pack.c:249-255 | the bytes for a list of filters or names are the bytes for the entries that are there |
| MqttPack.SubscribeLen | src/sakura_mqtt_pack.c:534-557 | the length pass adds up exactly what the writing pass writes |
| MqttPack.UnsubscribeLen | src/sakura_mqtt_pack.c:559-582 | the length pass adds up exactly what the writing pass writes; 0 if the first name is absent |
| MqttConnect.ConnectLenShort | src/sakura_mqtt_pack.c:469-509 | the computed length of CONNECT falls short by exactly the will when the flag is set without topic or payload |
| MqttConnect.ConnectExact | src/sakura_mqtt_pack.c:140-195 | CONNECT is a well-formed packet within the announced length iff the will flag comes with a topic and a payload |
| MqttPack.EncodeConnect | src/sakura_mqtt_pack.c:140-195 | either -1 and no change, or exactly the flags, identifiers, will and credentials of the CONNECT are written |
| Dns.SplitJoin | src/protocol/dns/sakura_dns.c:292-339 | splitting a name at its dots and joining the labels gives the name back iff it has no empty label |
| Dns.EncodeFits | src/protocol/dns/sakura_dns.c:292-339 | the encoding never takes more than the length of the name and two bytes |
| Dns.NextLabel | src/protocol/dns/sakura_dns.c:292-339 | the tokeniser skips dots and stops at the next dot or the end |
| Dns.EncodeDotStr | src/protocol/dns/sakura_dns.c:292-339 | the loop writes exactly the encoding and nothing behind it; it refuses only a size below two |
| DnsEnds.RunsOnIffCaught | src/protocol/dns/sakura_dns.c:468-504 | decoding runs on for ever iff it reaches a position from which pointers lead back to it; otherwise it is through after (size + 1) * (total + 2) rounds |
| DnsEnds.DecodingEnds | src/protocol/dns/sakura_dns.c:468-504 | unless it reaches such a position, decoding has ended after that many rounds |
| DnsEnds.BackwardEnds | src/protocol/dns/sakura_dns.c:468-504 | if every pointer leads to an earlier position, no chain returns to itself and decoding ends from every state |
| DnsEnds.SelfPointerRunsOn | src/protocol/dns/sakura_dns.c:348-385 | a pointer to itself, at any position of any packet, is followed for ever |
| DnsDecode.DecodesExactly | src/protocol/dns/sakura_dns.c:468-504 | decoding yields a name and a byte count iff the position denotes that name through some labels and pointers, it fits, and the count is the extent up to the NUL or the first pointer |
| DnsDecode.DenotesOnce | src/protocol/dns/sakura_dns.c:348-430 | a position denotes at most one list of labels |
| DnsRoundTrip.RoundTripIff | src/protocol/dns/sakura_dns.c:292-339 | where the encoding of any name with a label stands, decoding gives back the name and takes the whole encoding iff no label is empty, none is longer than 63 bytes, and the name and its NUL fit |
| DnsDecode.PointerDenotes | src/protocol/dns/sakura_dns.c:348-385 | at every position the two bytes of a pointer to k, high part first, denote what k denotes over one pointer more |
| DnsDecode.PointerIsFollowed | src/protocol/dns/sakura_dns.c:348-385 | decoding such bytes is decoding at k, takes two bytes, and fails iff decoding at k does or k is outside the packet |
| DnsDecode.NameRoundTrip | src/protocol/dns/sakura_dns.c:292-339 | for labels of 1 to 63 bytes, the encoded name decodes to itself and takes its length and two bytes, wherever it stands, iff it has no empty label |
| DnsDecode.CompressionIsTransparent | src/protocol/dns/sakura_dns.c:348-385 | labels followed by the two bytes of a pointer to where the uncompressed encoding of the other labels stands decode to the same name as the uncompressed encoding of all, and take the bytes up to the end of the pointer |
| DnsDecode.DenotedIsTransparent | src/protocol/dns/sakura_dns.c:348-385 | so does any position that denotes the labels of a name through any number of pointers |
| DnsDecoder.TakeLabel | src/protocol/dns/sakura_dns.c:394-430 | one label is copied with its dot, or refused at the end of the packet or of the room |
| DnsDecoder.TakePointer | src/protocol/dns/sakura_dns.c:348-385 | one pointer is followed, counted only the first time, or refused outside the packet |
| DnsDecoder.DecodeDotStr | src/protocol/dns/sakura_dns.c:468-504 | for every name that does not reach a circle of pointers, the loop over packet and name buffer ends and computes the specified name, NUL-terminated, and count, or fails as specified |
| CjsonRoundTrip.PrintParse | src/utils/cjson/cJSON.c:1081-1159 | for every tree of null, booleans, 32-bit integers, NUL-free strings, arrays and objects within the nesting limit, parsing the printed text, formatted or not, gives back the tree and ends at its NUL |
| CjsonRoundTrip.PrintInjective | src/utils/cjson/cJSON.c:1174-1236 | different trees have different texts |
| CjsonRoundTrip.ValueParses | src/utils/cjson/cJSON.c:1299-1351 | a printed value is read back wherever it stands in a text, if what follows cannot continue a number |
| CjsonRoundTrip.StringParses | src/utils/cjson/cJSON.c:760-886 | a printed string is read back wherever it stands: the scan finds the closing quote and the escapes are undone |
| CjsonRoundTrip.UnescapeAll | src/utils/cjson/cJSON.c:889-1008 | undoing the escapes of a text gives the text back |
| CjsonRoundTrip.NumberParses | src/utils/cjson/cJSON.c:292-366 | a printed 32-bit integer is read back |
| CjsonGrammar.TextIsRead | src/utils/cjson/cJSON.c:1082-1159 | every JSON text of the grammar of RFC 8259, given byte by byte with any blanks, spellings of strings and digits of 32-bit integers, at most 1000 levels deep and behind blanks and a byte order mark, is read as the tree it means, whatever follows |
| CjsonGrammar.DocRead | src/utils/cjson/cJSON.c:1299-1351 | so is every value of the grammar at any offset of a text and any depth that leaves room for its levels |
| CjsonSound.AcceptedIsText | src/utils/cjson/cJSON.c:1082-1159 | whatever is accepted begins with a text of that grammar, no deeper than 1000 levels, which means the tree that is given; the only liberty is a code in a string whose digits are none, read as NUL |
| CjsonSound.ShortMarkRefused | src/utils/cjson/cJSON.c:1051-1067 | in a text of four bytes a byte order mark is not skipped, and the text is refused |
| CjsonUtf8.Utf8IsRead | src/utils/cjson/cJSON.c:700-757 | the bytes written for any code point below 110000 (hexadecimal) are read, by the ranges of leading and continuation bytes of RFC 3629, as that code point in the shortest form |
| CjsonUtf8.EscapedCharacter | src/utils/cjson/cJSON.c:641-757 | the escape of any code point outside the surrogates, one code or a pair of codes of hexadecimal digits in either case, is undone to bytes that are read as that code point |
| CjsonSound.HalfPairRefused | src/utils/cjson/cJSON.c:651-694 | half a pair without the other half is refused |
| CjsonUtf8.ShortEscapes | src/utils/cjson/cJSON.c:813-846 | each escape with a letter is undone to its byte |
| CjsonSound.StringEnds | src/utils/cjson/cJSON.c:862-868 | a string is kept up to its first NUL |
| CjsonGrammar.PrintedCharacter | src/utils/cjson/cJSON.c:889-1008 | what is printed for a byte is a spelling of it in the grammar: a letter escape where there is one, a code with lower-case digits for other control characters, else the byte |
| CjsonLayout.TextLaidOut | src/utils/cjson/cJSON.c:1701-1812 | a printed text is accepted by the automaton of its layout: formatted, a line for each member and closing brace of an object with as many tabs as arrays and objects are open, a tab behind a colon, a space behind a comma of an array, no other blanks; unformatted, none |
| CjsonLayout.ValueLaidOut | src/utils/cjson/cJSON.c:1354-1425 | so is a value printed inside any arrays and objects, and what is open after it is what was open before |
| CjsonDepth.PrintParseIff | src/utils/cjson/cJSON.c:1428-1441 | the text of a tree of null, booleans, 32-bit integers, NUL-free strings, arrays and objects is read back as that tree iff its nesting depth is within the limit, and refused otherwise |
| CjsonDepth.StorableIff | src/utils/cjson/cJSON.c:1428-1441 | the trees PrintParse is about are exactly those whose depth, counted from the leaves, is within the limit |
| CjsonPrinter.PrintBuffer.Ensure | src/utils/cjson/cJSON.c:426-509 | room for the bytes asked for and one more is made by growing, keeping the text; it is refused iff it passes INT_MAX and is not there already |
| CjsonPrinter.PrintBuffer.UpdateOffset | src/utils/cjson/cJSON.c:512-522 | the offset moves to the end of the text, found by its NUL |
| CjsonPrinter.PrintBuffer.PrintStringPtr | src/utils/cjson/cJSON.c:889-1008 | counting and then writing appends exactly the quoted and escaped string, with a NUL; it fails only when the text would pass INT_MAX |
| CjsonPrinter.PrintBuffer.PrintNumber | src/utils/cjson/cJSON.c:532-599 | appends exactly the decimal digits of the integer, with a NUL |
| CjsonPrinter.PrintBuffer.PrintValue | src/utils/cjson/cJSON.c:1354-1425 | appends exactly the text of the value at the current depth |
| CjsonPrinter.PrintBuffer.PrintArray | src/utils/cjson/cJSON.c:1526-1585 | appends exactly the text of the array and restores the depth |
| CjsonPrinter.PrintBuffer.PrintObject | src/utils/cjson/cJSON.c:1701-1812 | appends exactly the text of the object, indented when formatted, and restores the depth |
| CjsonPrinter.PrintBuffer.PrintText | src/utils/cjson/cJSON.c:1174-1236 | returns exactly the text of the tree with its NUL, or NULL only if it would pass INT_MAX |
| CjsonParser.ParseBuffer.SkipWhitespace | src/utils/cjson/cJSON.c:1025-1048 | skips blanks as specified, stepping back from the end of the content |
| CjsonParser.ParseBuffer.FindQuote | src/utils/cjson/cJSON.c:776-797 | the scan stops at the quote that no backslash escapes, or at the end, and counts the backslashes that start an escape |
| CjsonParser.ParseBuffer.ParseStringLiteral | src/utils/cjson/cJSON.c:760-886 | reads the string specified at the offset and moves behind it, or fails as specified |
| CjsonParser.UnescapeLoop | src/utils/cjson/cJSON.c:797-868 | the loop over the escapes, UTF-16 pairs included, writes the specified bytes and their NUL into a block of the length computed before: no more bytes than the literal has characters besides those backslashes |
| CjsonParser.LiteralShrinks | src/utils/cjson/cJSON.c:641-757 | an accepted UTF-16 literal, one or two escapes long, gives no more bytes than it has characters besides its backslashes |
| CjsonParser.RoomIsEnough | src/utils/cjson/cJSON.c:797-799 | however far the loop has got, what it has written fits the length computed before |
| CjsonParser.ParseBuffer.ParseNumberToken | src/utils/cjson/cJSON.c:292-366 | reads the integer specified at the offset |
| CjsonParser.ParseBuffer.ParseAny | src/utils/cjson/cJSON.c:1299-1351 | reads the value specified at the offset, for every content |
| CjsonParser.ParseBuffer.ParseArray | src/utils/cjson/cJSON.c:1428-1523 | reads the array specified at the offset and restores the depth, or fails as specified |
| CjsonParser.ParseBuffer.ParseObject | src/utils/cjson/cJSON.c:1588-1698 | reads the object specified at the offset and restores the depth, or fails as specified |
| CjsonParser.ParseBuffer.ParseText | src/utils/cjson/cJSON.c:1082-1159 | parses a whole text as specified, after a byte order mark if there is one |
| CjsonList.Node.LinkParsed | src/utils/cjson/cJSON.c:1462-1508 | linking the items of a parsed array or object one behind the other, and the head to the tail at the end, establishes the list invariant |
| CjsonList.Node.AddItemToArray | src/utils/cjson/cJSON.c:1943-1974 | appends to the sibling sequence and keeps the list invariant: next links the items in order, prev mirrors next, the prev of the head is the tail; refuses NULL and the array itself |
| CjsonList.Node.GetArrayItem | src/utils/cjson/cJSON.c:1838-1855 | walks to the item at the index, or NULL past the end |
| CjsonList.Node.InsertItemInArray | src/utils/cjson/cJSON.c:2249-2277 | inserts before the index, appends past the end, refuses a negative index and NULL past the end, keeping the invariant |
| CjsonList.Node.InsertBefore | src/utils/cjson/cJSON.c:2262-2276 | an item is linked in before another, at the head or inside |
| CjsonList.Node.DetachItemViaPointer | src/utils/cjson/cJSON.c:2174-2208 | removes exactly that item from the sequence and clears its links, at the head, inside or at the tail |
| CjsonList.Node.ReplaceItemViaPointer | src/utils/cjson/cJSON.c:2279-2326 | puts the replacement in the place of the item and clears the links of the item |
| CjsonList.ForwardVisits | src/utils/cjson/cJSON.c:1838-1855 | following next visits the items in order and then leaves the list: the chain has no cycle |

## Left out

- MqttAgreement.TrackersAgreeWithBackup: one direction for the last state alone, because a run that revives a tracker may later release it again; both directions, for all states of a run, are MqttAgreement.RunsAgreeIff.
- MqttAgreement.StepsAgreeIff: sends and tracker visits are allowed in every phase of the connection, which covers all sessions of MqttTick (MqttTick.SessionIsRun) and more; the run that breaks the agreement is a session.
- MqttClient.Client.LoopOnce: requires that every release of the pass ends and cuts no queued message (MqttRelease.ExactSweep), and so do PollAllEvent, TickClient and Tick of MqttSession.Connection; what one such release does is MqttClient.Client.Visit. What the code does afterwards with a send buffer that holds a cut message is not followed. MqttPatience.PatientSession names sessions in which none is cut, MqttCut sessions in which one is and in which the scan does not end.
- MqttQueue.SendingIsFifo: like the other theorems over runs it is about the engine, in which a release ends and drops the queued messages of its tracker and no other; they hold of the code in sessions that meet MqttTick.ExactSession, which asks just that of every release, whatever is behind the buffer.
- MqttExact.SkippedStays: one direction; with several queued messages of different lengths the exact outcome is the walk of MqttRemoval.RemoveSent, since a piece of another message can equal the message that should go.
- MqttRemoval.RemoveSent: where the source goes round for ever the method returns and says so. Behind the array that is modelled all bytes read as zero, so that every length field ends; the theorems on exact removal hold for every content of what is behind the buffer. The mark put on a frame that is being sent is not modelled: no tracker is ever in that state.
- MqttFrameBuffer.FrameBuffer.RemoveAt: works on an array with spare room behind the buffer, because the move of the source may read and write behind it; exactly when it does is MqttFrameBuffer.RemovalReadsInside and MqttFrameBuffer.RemovalWritesInside.
- MqttClient.Client.PackRequest: takes the packet bytes from the encoder functions; MqttPack proves that the encoders in place write those bytes. The order of the length check and the id draw is that of the source.
- MqttClient.Client.HandleSimpleAck: a PUBREC or PUBREL without a matching tracker is not answered and gives the invalid-argument code; the comments at src/sakura_mqtt_core.c:2525 and 2548-2552 speak of a reply, the code is followed.
- MqttClient.Client.HandleConnackCode: the return codes kept for callbacks of CONNACK and SUBACK are not modelled.
- MqttClient.Client.ResetClient: the receive buffer and the outstanding ping are cleared by MqttSession.Connection.Reset; topic states are not modelled.
- MqttReceiver.Receiver.HandleMessages: the verdicts are inputs; with those of the dispatcher it is MqttSession.Connection.HandleMessages, and MqttTick.FeedIsHandle joins the two.
- MqttInbound.FirstPublish: a QoS 2 PUBLISH that finds no free tracker is reported and answered but not tracked, so a retransmission of it is reported again; the theorems on single reports start from a held tracker.
- MqttRetry.RetransmissionIsBounded: ticks do not wrap.
- MqttAnswers.RequestIsAnswered: what follows the id in the answer, such as the codes of SUBACK, is not looked at.
- MqttLife.ConnackDecides: a client whose CONNECT is refused stays in the connecting phase, as in the source; its tracker is free or finished and has no deadline any more.
- CjsonGrammar.TextIsRead: integers of at most 63 characters, which is what the source copies; leading zeros and all bytes below a space between values are accepted, as in the source.
- CjsonSound.AcceptedIsText: one direction; a code with digits that are none may swallow a backslash, which changes where the string seems to end.
- MqttPack.EncodeConnect: demands room for the bytes really written, which are more than buflen when the will is not counted.
- MqttPack.EncodeSubscribe: a NULL list, as opposed to a NULL entry, is not modelled; the same holds for MqttPack.EncodeUnsubscribe.
- Heap.Heap.HeapAlloc: requests whose rounding would overflow 64 bits are excluded; sizes in headers stay within 32 bits.
- Heap.Heap.HeapFree: pointers that are not in use, which the source does not check, are excluded.
- DnsDecoder.DecodeDotStr: names that reach a circle of pointers are excluded, because the source loops for ever on exactly those (DnsEnds.RunsOnIffCaught); assumes two readable bytes behind the packet and buffers of at most 65535 bytes.
- Dns.EncodeDotStr: the caller's buffer is large enough, as the allocation of the source makes it; the source itself checks only for two bytes. Labels over 63 bytes are encoded, over 255 with their length truncated, as the source does; DnsRoundTrip.RoundTripIff says that these names do not come back.
- CjsonParser.ParseBuffer.ParseNumberToken: numbers with a fraction or exponent, with or without digits before the point, or outside 32 bits, are reported as not modelled instead of parsed as floating point.
- CjsonPrinter.PrintBuffer.PrintNumber: only numbers whose double equals their 32-bit integer, which the source prints in decimal.
- CjsonPrinter.PrintBuffer.Ensure: growing fails only past INT_MAX; a failing allocator and fixed buffers are left out.
- CjsonList.Node.AddItemToArray: an item added to a list that has items has no successor, which the source needs but does not check.
- CjsonList.Node.InsertItemInArray: the same past the end; a NULL item within the list, and the array itself, are excluded, which the source does not check there.
- CjsonList.Node.LinkParsed: the linking of the parsers by itself; CjsonParser.ParseBuffer builds the children as values.
- CjsonList.Node.ReplaceItemViaPointer: deleting the item that was replaced is left out.
- CjsonRoundTrip.PrintParse: trees are values here; that sibling lists hold the same children in the same order is CjsonList, and the two are not joined.
- cJSON raw items, references, locales, minification, error positions and case-insensitive lookup.
- Sockets, select, the DNS transport and answer parsing, the daemon thread, logging, mutexes and allocation failure: the outcome of a send or of a TCP connect is an input, and each call is one atomic step under the global lock.
- The subscription topic list (src/sakura_mqtt_core.c:624-779, 2663-2687), whose failed lookup returns the last node visited.
- User callbacks are recorded and do not re-enter the client; automatic reconnect and resubscribe are left out.
- Net buffers hold at most 65535 bytes, since the lengths of backup frames are 16 bits wide.
- The intrusive queue, calendar, time and address helpers, platform stubs and build scripts: only easy members.
