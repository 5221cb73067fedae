# Verified model of uoproxy

uoproxy sits between Ultima Online clients and a game server. Several clients can
share one connection to the game. This project models the logic behind that in
Dafny and proves what it is meant to guarantee. `dafny verify dfyconfig.toml`
checks everything.

The modules follow the program's components:

- `Huffman`, `HuffmanTable`, `Codec`: the Huffman tree, the table built from it,
  and compression and resumable decompression. Everything is proved for an
  arbitrary well-formed tree; a certificate (the field that holds each node and
  each symbol) shows that the program's tree is one.
- `Framing`, `Fifo`, `Pipeline`, `Protocol`: packet lengths, the framing loop, the
  buffer under it, and the end-to-end result.
- `TimerWheel`: the 120 buckets, runs with callbacks that insert and cancel, and an
  event loop that drives the wheel.
- `SerialList`, `World`, `Attach`: the mirror of the game world and its replay to a
  client that attaches.
- `SliceArea`, `SlicePool`: the slice allocator.
- `IntrusiveList`: the circular linked list on which the program is built.
- `Walk`, `WalkOrder`, `WalkState`: walks in flight; the protocol as steps, the
  protocol with a server that replies in order, and the program's own data.
- `Session`, `SessionOutcomes`, `SessionRuns`, `SessionState`: login sessions; the
  steps, what each of them does in terms of the state before it, what holds of all runs,
  and the program's own objects with their pointers, searches and loops.
- `Version`: the order of client versions.
- `Bits`, `Seqs`, `Wrappers`: shared facts and types.

Where the program changes objects in place, the model has classes with loops and
each method is proved against a specification on values; what is promised is then
proved of that specification, for single steps and for whole runs.

## Findings

Some properties do not hold of the code as it is. Each has an exact condition for all
inputs, and an input for which it fails.

- With a configured list of game servers, no client ever gets past its account
  login: the list is sent, but the client stays in a phase in which its choice of a
  server is refused (`SessionRuns.NobodyLogsIn`; otherwise a run past it exists,
  `SessionRuns.SomebodyLogsIn`).
- A Start packet puts every client of the connection into the game, also the
  placeholder of a redirected client, which has no socket. Exactly this breaks "a
  client in the game has a socket" (`SessionRuns.GhostsStep`), and it can happen
  (`SessionRuns.GhostsCanAppear`).
- What a client has presented are its connection's credentials in all states of a
  run, if and only if no redirected client ever sends a game login with other
  credentials on its old socket, where they are not compared
  (`SessionRuns.MatchesStep`, `SessionRuns.MatchesRun`). A run in which they differ
  exists (`SessionRuns.CredentialsCanDiffer`).
- A reply of the server is looked up by its number. The wrong walk is found if and
  only if some queued walk other than the one replied to, and not behind it in the
  queue, was forwarded equally long after a restart of the numbers, or a multiple of
  255 apart (`WalkOrder.RightUnlessCollides`). In every run, the acknowledgements that
  are given for another walk are counted by these collisions, and clients are always
  told the truth if and only if there are none (`WalkOrder.EveryRun`). Two walks with a
  target chosen between them are enough (`WalkOrder.TargetTooSoon`), and so are two
  walks with a new connection to the server between them, which keeps the queue
  (`WalkOrder.NewServer`), and 256 unanswered walks (`WalkOrder.LateServer`). There is
  no collision while the server replies to every walk and has at most 255 to reply to,
  the numbers are restarted behind its back only when it has none, and the connection
  to it is lost only when none is queued (`WalkOrder.CarefulRun`).
- Queued walks keep different numbers unless a walk is forwarded under a number that
  is still queued (`Walk.DifferStep`). A resynchronization on a client's request and
  a Start packet restart the numbers and keep the queue, after which that happens
  (`Walk.RestartDuplicates`).
- An area whose last slice is returned goes to the empty areas if and only if it has
  at least two slices; with one it goes to the main list (`SlicePool.EmptiedIsFiled`).
  An area has one slice exactly if a slice takes more than half a page and one was
  wanted per area (`SliceArea.GeometryIsValid`).
- The generation marks of items are 32 bits wide. An unlisted item of a container
  survives an update if and only if its old mark equals the new one
  (`World.StaleMarkSurvives`), which takes a counter that has wrapped around
  (`World.NoStaleMark`); then it does happen (`World.KeepStaleItem`).
- Both packets that put an item on the ground store it under the command WorldItem7,
  but the pass for an attaching client looks for WorldItem, so nothing tells the client
  where such an item is. The client knows all that the proxy knows about an item if and
  only if its mark was not stale and it is not on the ground (`Attach.AttachClient`); in
  a world with one item on the ground it knows nothing (`Attach.AttachToGround`).
- The decompression buffer is shifted only when its tail is at the end, so it can
  be "full" with free space in front. A chunk is taken if and only if it fits behind
  the tail (`Pipeline.Client.OnSocketData`), and a run succeeds if and only if every
  chunk does in its turn (`Pipeline.Drain`). With a buffer of any size from three bytes
  on, a client can throw although what it holds and what arrives fit the buffer
  (`Pipeline.RoomIsWasted`).

## Model

| member | source | states |
|---|---|---|
| `Huffman.FieldsAreParents` | src/Compression.cxx:24-281 | in a tree in which every node and symbol has a parent field, there is no other field: the certificate covers the whole tree |
| `Huffman.ShapeOf` | src/Compression.cxx:12-22 | children are later nodes or symbols, so every walk down ends |
| `Huffman.CodeSpells` | src/Compression.cxx:338-369 | walking the tree along a symbol's code reaches its leaf and no earlier leaf |
| `Huffman.PrefixFree` | src/Compression.cxx:332-382 | no symbol's code is a prefix of another symbol's code |
| `Huffman.Complete` | src/Compression.cxx:332-382 | every eleven bits start with the code of exactly one symbol |
| `Huffman.CodeLength` | src/Compression.cxx:24-281 | codes have 2 to 11 bits |
| `Huffman.FollowChild` | src/Compression.cxx:338-354 | following a child writes exactly the symbols below it, each once, with their codes |
| `Huffman.FillBitTable` | src/Compression.cxx:356-369 | the recursion ends, writes exactly the symbols below a node once and leaves the rest of the table |
| `Huffman.BuildBitTable` | src/Compression.cxx:371-382 | every one of the 257 symbols is written exactly once, with its code |
| `HuffmanTable.TreeParented` | src/Compression.cxx:24-281 | each node but the root and each symbol of the program's tree has the parent field that the certificate names |
| `HuffmanTable.TreeWellFormed` | src/Compression.cxx:24-281 | the program's tree is well formed: later children, all symbols, leaves at depth 2 to 11 |
| `HuffmanTable.FlushCode` | src/Compression.cxx:24-281 | the flush symbol is the bits 1101 |
| `Codec.CompressedSize` | src/Compression.cxx:435-453 | the output has as many bytes as the codes with the flush symbol need, rounded up |
| `Codec.DecodeConcat` | src/Compression.cxx:283-325 | decoding can stop after any byte and go on |
| `Codec.DecodeSymbol` | src/Compression.cxx:283-325 | decoding a symbol's code yields the symbol and goes back to the root |
| `Codec.DecodeMessage` | src/Compression.cxx:309-323 | decoding a message yields its bytes; the flush symbol discards exactly the padding |
| `Codec.DecodeCompressed` | src/Compression.cxx:283-325 | decoding a compressed message with anything behind it yields the message and then what follows |
| `Codec.ChunksDecode` | src/Compression.cxx:283-325 | decoding chunk by chunk is the same as decoding everything at once, for every chunking |
| `Codec.RoundTrip` | src/Compression.cxx:283-453 | for all messages and all chunkings of their joined compressions, decoding yields the joined messages and ends at rest |
| `Codec.DecodedSize` | src/Compression.cxx:283-325 | twice the decoded bytes are at most the bits plus the depth of the starting node |
| `Codec.ShiftIn` | src/Compression.cxx:397-406 | the 32-bit shift register loses no pending bit when a code is fed |
| `Codec.ShiftOut` | src/Compression.cxx:408-419 | the byte sent is the first eight pending bits |
| `Codec.Compression.FeedChar` | src/Compression.cxx:397-406 | with at most 7 pending bits, the code is appended to them and fewer than 31 are pending |
| `Codec.Compression.OutputBits` | src/Compression.cxx:408-419 | sends all whole bytes in order, or throws exactly if they do not fit |
| `Codec.Compression.FlushOutput` | src/Compression.cxx:421-433 | sends the last bits padded with zeros, or throws exactly if there is no room |
| `Codec.PutChar` | src/Compression.cxx:441-444 | a symbol's code goes through the register to the buffer |
| `Codec.Compress` | src/Compression.cxx:435-453 | writes exactly the compressed message, throws if and only if the buffer is shorter, and leaves the rest of the buffer |
| `Codec.FinishMessage` | src/Compression.cxx:446-452 | the end of the message: flush symbol, whole bytes, padding |
| `Codec.Decompression.FollowBit` | src/Compression.cxx:292-323 | one bit takes the left child if set, else the right one; a leaf goes back to the root; the flush symbol ends the byte |
| `Codec.Decompression.DecodeByte` | src/Compression.cxx:287-323 | a byte decodes to what the tree says, behind what was written before, or throws exactly if that does not fit |
| `Codec.Decompression.Decompress` | src/Compression.cxx:283-325 | the loop with carried state decodes its input as one bit string and throws exactly if the output does not fit |
| `Framing.GetPacketLength` | src/uo/Length.cxx:104-128 | a determined length is at least 1, and a length is undetermined only before three bytes have arrived; what it is in all cases is stated by the next rows |
| `Framing.OwnLength` | src/uo/Length.cxx:120-127 | for every command that carries its length, every 16-bit value in big-endian behind the command and every payload: the value is the length from 3 to 0x7fff, and invalid otherwise |
| `Framing.TableLength` | src/uo/Length.cxx:104-121 | any other command has the length of its table whatever follows, 0xffff is invalid, and a command that carries its length waits for two more bytes |
| `Framing.VersionLengths` | src/uo/Length.cxx:48-102 | where the versions differ: item drops and container updates from 6 on, supported features from 6.0.14 on, opened containers from 7 on, and nowhere else |
| `Framing.WalkLengths` | src/uo/Length.cxx:12-46 | the lengths of the packets with which clients walk |
| `Framing.LoginLengths` | src/uo/Length.cxx:12-46 | the lengths of the packets with which clients log in |
| `Framing.LengthIsStable` | src/uo/Length.cxx:104-128 | a determined length, and an invalid one, does not change when bytes are appended |
| `Framing.ParseConserves` | src/ParsePackets.cxx:18-54 | packets taken plus the rest are the input, whatever the handler answers |
| `Framing.ParseMeans` | src/ParsePackets.cxx:18-54 | how the loop ends: all that was taken are whole packets that were accepted; it stops exactly at an answer that is not acceptance, at an invalid packet, at a part of one or at the end, and the status says which |
| `Framing.RefusedStays` | src/ParsePackets.cxx:43-51 | a packet on which the handler blocked or closed is still at the front |
| `Framing.FramesConcat` | src/ParsePackets.cxx:18-54 | framing does not depend on how the bytes arrive |
| `Framing.FramesOfRest` | src/ParsePackets.cxx:36-37 | what is left contains no whole packet |
| `Framing.FramesOfPackets` | src/ParsePackets.cxx:18-54 | joined packets are framed as they were |
| `Fifo.FifoBuffer.Shift` | src/util/ForeignFifoBuffer.hxx:221-234 | moving the contents to the front keeps the queue |
| `Fifo.FifoBuffer.Write` | src/util/ForeignFifoBuffer.hxx:120-127 | keeps the queue and shifts only when the tail is at the end |
| `Fifo.FifoBuffer.WantWrite` | src/util/ForeignFifoBuffer.hxx:129-141 | makes room exactly if the bytes fit at all |
| `Fifo.FifoBuffer.Append` | src/util/ForeignFifoBuffer.hxx:148-153 | what was written behind the tail joins the queue |
| `Fifo.FifoBuffer.Consume` | src/util/ForeignFifoBuffer.hxx:171-176 | takes bytes off the front |
| `Fifo.FifoBuffer.MoveFrom` | src/util/ForeignFifoBuffer.hxx:195-212 | takes exactly the smaller of the source and the free space, in order |
| `Fifo.FifoBuffer.MoveFromBuffer` | src/util/ForeignFifoBuffer.hxx:214-218 | both queues joined stay the same; the source is empty or the buffer full |
| `Fifo.ParsePackets` | src/ParsePackets.cxx:13-55 | the loop on the buffer delivers, refuses, keeps and reports what the specification of framing says |
| `Pipeline.FeedAllFrames` | src/Client.cxx:74-90 | chunks together deliver the frames of everything that decodes from them |
| `Pipeline.EndToEnd` | src/Client.cxx:55-90 | packets compressed one by one, joined and cut anywhere arrive unchanged and in order, with nothing left over |
| `Pipeline.FittingIsRoomy` | src/Client.cxx:55-66 | every chunk finds room if everything still to come fits behind the tail |
| `Pipeline.RoomIsWasted` | src/Client.cxx:55-66 | for every capacity from three on and every well-formed tree and table with packets of one and three bytes: two chunks of which the second fits beside the residue and yet finds no room |
| `Pipeline.Client.Decompress` | src/Client.cxx:55-66 | decodes behind the tail of the buffer if and only if there is room there; else it throws |
| `Pipeline.Client.OnSocketData` | src/Client.cxx:74-90 | one chunk is decoded and framed as specified if and only if it fits behind the tail; else the call throws |
| `Pipeline.Drain` | src/Client.cxx:74-90 | feeding chunk by chunk delivers exactly what was sent if and only if every chunk finds room in its turn; else it throws |
| `Pipeline.ReceiveAll` | src/Client.cxx:55-90 | a compressed packet stream in any chunks is delivered exactly as sent if and only if every chunk finds room, and always if the stream fits the buffer |
| `Protocol.ProtocolEndToEnd` | src/Server.cxx:112-133 | the end-to-end result for the program's tree and every protocol version's length table |
| `Protocol.WireSize` | src/Compression.cxx:435-453 | a packet takes its code bits plus four, rounded up to bytes; 2 to 11 bits for each byte |
| `TimerWheel.Wheel.Insert` | src/event/TimerWheel.cxx:20-33 | a timer in the future is appended to the bucket of its time, any other to the ready list; all other lists stay as they are |
| `TimerWheel.Wheel.Unlink` | src/event/TimerWheel.cxx:36-52 | a cancelled timer is in no list, also while a bucket is being run |
| `TimerWheel.Wheel.RunReady` | src/event/TimerWheel.cxx:98-101 | runs everything in the ready list, also what is added meanwhile; a timer that no operation names is still pending or ran once |
| `TimerWheel.Wheel.RunBucket` | src/event/TimerWheel.cxx:35-52 | runs what is due and keeps the rest, whatever callbacks insert and cancel; insertions and cancellations are exactly those that operations name |
| `TimerWheel.Wheel.GetNextDue` | src/event/TimerWheel.cxx:54-73 | the end of the first non-empty bucket in circular order, or none |
| `TimerWheel.Wheel.GetSleep` | src/event/TimerWheel.cxx:75-93 | negative exactly if all buckets are empty; else exactly the time to the end of the first bucket that is not, which is in (0, SPAN] and not past the end of any timer's bucket |
| `TimerWheel.Wheel.RunBuckets` | src/event/TimerWheel.cxx:132-139 | afterwards no timer in the range is due; nothing ran early and nothing was lost |
| `TimerWheel.Wheel.ChooseBuckets` | src/event/TimerWheel.cxx:103-127 | how many buckets are run: all exactly after SPAN less one bucket, else as many as have passed, and none exactly within the current one |
| `TimerWheel.Wheel.Run` | src/event/TimerWheel.cxx:95-145 | no timer early, none late if none had expired before; a pending timer that no operation names is still pending or has run exactly once; afterwards no bucketed timer is due before the start of the current bucket, and the ready list is empty unless the loop is told to look again; the sleep is sound |
| `TimerWheel.NoneLeftBehind` | src/event/TimerWheel.cxx:103-139 | the chosen range contains every timer whose bucket has passed, also those more than SPAN ahead |
| `TimerWheel.FirstEnd` | src/event/TimerWheel.cxx:54-93 | the first non-empty bucket ends no later than that of any timer, and within SPAN |
| `TimerWheel.Settle` | src/event/Loop.cxx:504-533 | the loop looks at the timers again until nothing was inserted meanwhile and no deferred or idle event is left, which ends; the ready list is empty then, nothing ran early or late, and insertions are exactly those that the events and callbacks scheduled |
| `TimerWheel.LookOnce` | src/event/Loop.cxx:504-537 | one look at the timers and the deferred events; unless something was inserted, the promise about the sleep holds and the ready list is empty |
| `TimerWheel.FollowsTrans` | src/event/TimerWheel.cxx:95-145 | what holds of two runs in turn holds of both together: nothing lost, nothing early, nothing late |
| `TimerWheel.PlayRound` | src/event/Loop.cxx:504-549 | a round wakes up no later than told, runs nothing early or late, ends with an empty ready list, and inserts a timer exactly as often as the round and the callbacks in it schedule it; if only the round's own operations name a timer, the last of them decides whether it is pending |
| `TimerWheel.TraceSum` | src/event/Loop.cxx:504-549 | over all rounds together, nothing ran early or late, and insertions and cancellations add up |
| `TimerWheel.Drive` | src/event/Loop.cxx:504-549 | all rounds are played in order, each as described; no timer runs early, a timer that was due when it was inserted runs at that time and any other within one RESOLUTION of its time; insertions are exactly those scheduled; once its time has passed, every insertion was cancelled or led to a call |
| `TimerWheel.DriveNew` | src/event/Loop.cxx:504-549 | the same for every new wheel, every script of callbacks and all rounds: each call takes the next entry of the script, and once its time has passed a timer has run exactly as often as it was scheduled and not cancelled |
| `SerialList.Find` | src/World.cxx:18-26 | finds an entry exactly if the list as a map has one |
| `SerialList.Make` | src/World.cxx:28-38 | the list remains a map and only this serial can be added |
| `SerialList.Put` | src/World.cxx:28-38 | an update of one serial leaves all others |
| `World.World.ApplySocket` | src/World.cxx:40-63 | where an item is gets overwritten, nothing else |
| `World.World.ApplyOpen` | src/World.cxx:65-71 | the open container packet of one item is replaced |
| `World.World.RemoveItemTree` | src/World.cxx:130-148 | ends on every item graph and removes exactly the least set closed under "in the serial, or in a removed item"; no item is left whose socket, as contents or as equipment, names the serial |
| `World.World.RemoveItemSerial` | src/World.cxx:150-160 | removes the item and everything below it, nothing else |
| `World.World.RemoveMobileSerial` | src/World.cxx:350-360 | removes the mobile and everything below it, nothing else; no item is left that is worn by it |
| `World.World.RemoveSerial` | src/World.cxx:362-369 | the serial's range decides whether a mobile, an item or nothing is removed |
| `World.World.ApplyIncoming` | src/World.cxx:184-243 | the stored packet of one mobile is replaced and its status stays; each piece of equipment before the first one without serial is worn by it, with its last mention, and no other item changes |
| `World.World.ApplyStatus` | src/World.cxx:245-256 | a status with fewer flags does not replace the stored one |
| `World.World.ApplyContent` | src/World.cxx:100-121 | listed items get their last data, then the first entry's container is swept by mark |
| `World.ContentIsExact` | src/World.cxx:73-121 | afterwards the items in the container are exactly the listed ones with their last data, and no unlisted item outside has changed |
| `World.StaleMarkSurvives` | src/World.cxx:73-82 | an unlisted item survives the sweep if and only if its old mark equals the new one |
| `World.KeepStaleItem` | src/World.cxx:100-121 | a world in which an unlisted item stays in the container |
| `World.NoStaleMark` | src/World.cxx:100-107 | while the counter has not wrapped, no old mark equals the new one |
| `World.SubtreeUnique` | src/World.cxx:130-148 | there is only one such least set |
| `World.SubtreeOnSockets` | src/World.hxx:45-56 | what this means for the sockets: nothing left is in, or worn by, the serial or something removed; everything removed is; an item that is in nothing is removed only if the serial, or that of a removed item, is 0 |
| `World.LastOfIs` | src/World.cxx:110-115 | of several entries for one serial, the one without a later one counts |
| `World.DressedIs` | src/World.cxx:184-243 | a piece that is mentioned is worn by the mobile as its last mention says, and keeps its open packet and mark |
| `World.DressedKeeps` | src/World.cxx:184-243 | a piece that is not mentioned stays as it was |
| `Attach.AttachItem` | src/Attach.cxx:11-70 | a visit ends on every graph, marks, and sends the container's packets before the item's own; its packets are those of the visits, whose forms are stated below; nothing tells where an item on the ground is |
| `Attach.VisitAll` | src/Attach.cxx:141-144 | the loop visits what is not marked yet and sends the packets of the visits |
| `Attach.ContainersFirstRanks` | src/Attach.cxx:29-48 | if containers came first, containment has no cycle |
| `Attach.SendItems` | src/Attach.cxx:140-144 | every item exactly once, cycles or not; every packet in the form of the client's protocol; no item is opened before it is known where it is; containers before their contents if and only if there is no cycle, and then nothing about a container comes after the update of something in it; together the packets show exactly the visited items |
| `Attach.FormsOfLog` | src/Attach.cxx:36-66 | every container update has the form of version 6 exactly if the client knows it, every opened container that of version 7, and only visited items are sent |
| `Attach.OrderOfLog` | src/Attach.cxx:11-70 | no item is opened before its place is sent |
| `Attach.ContainersOfLog` | src/Attach.cxx:29-48 | if containers come first in the visits, no packet about a container comes after the update of something in it |
| `Attach.MirrorOfLog` | src/Attach.cxx:11-70 | applied to an empty world, the packets of a pass show exactly the visited items: open packets, and where an item is unless it is on the ground |
| `Attach.Receive` | src/World.cxx:40-71 | a world that gets the packets one by one ends up with what they show |
| `Attach.AttachClient` | src/Attach.cxx:139-144 | a client that attaches with nothing knows all that the proxy knows about an item if and only if its mark was not stale and it is not on the ground; of the others it knows exactly whether they are open |
| `Attach.AttachToGround` | src/Attach.cxx:17-26 | a world with one item on the ground of which an attached client knows nothing |
| `SliceArea.GeometryIsValid` | src/memory/SlicePool.cxx:213-243 | the computed geometry is sound and large enough, the header with its slots fits the header pages; one slice per area exactly in one case |
| `SliceArea.GeometryIsTight` | src/memory/SlicePool.cxx:213-243 | nothing is larger than needed: small slices are rounded up to 32 bytes and large ones to pages, a page holds as many as fit, and one page less would not do for the slices, nor for the header |
| `SliceArea.IndexOfSlice` | src/memory/SlicePool.cxx:100-134 | the index can be computed back from the pointer, in both geometries |
| `SliceArea.SliceInside` | src/memory/SlicePool.cxx:100-118 | every slice lies inside its area, behind the header |
| `SliceArea.SlicesDisjoint` | src/memory/SlicePool.cxx:108-118 | different slices do not overlap |
| `SliceArea.FreeChainMeans` | src/memory/SliceArea.hxx:22-40 | the chain of free slots has no cycle and holds exactly the slots that are not allocated |
| `SliceArea.Area.constructor` | src/memory/SlicePool.cxx:37-49 | the free list of a new area holds all slots in order |
| `SliceArea.Area.FullMeans` | src/memory/SlicePool.cxx:66-73 | an area is full exactly if all its slices are allocated |
| `SliceArea.Area.Alloc` | src/memory/SlicePool.cxx:313-328 | takes the first free slot; the list stays without cycles and exact |
| `SliceArea.Area.Free` | src/memory/SlicePool.cxx:356-369 | puts the slot back at the front; no other slot changes |
| `SlicePool.FiledMeans` | src/memory/SlicePool.hxx:40-60 | every area is in exactly one list: partly allocated ones in the main list, empty and full ones in theirs |
| `SlicePool.FiledMoved` | src/memory/SlicePool.cxx:343-351 | moving an area between lists when its count changes loses and duplicates nothing, and the live count follows |
| `SlicePool.FiledAlloc` | src/memory/SlicePool.cxx:338-351 | after an allocation every area is in the one list where it belongs, and the live count is one more |
| `SlicePool.FiledFree` | src/memory/SlicePool.cxx:379-394 | after a return every area is in the one list where it belongs, and the live count is one less |
| `SlicePool.AllocOutcome` | src/memory/SlicePool.cxx:342-351 | in every filed pool: a full area comes last among the full ones, an area that was empty last in the main list, and no other area moves |
| `SlicePool.FreeOutcome` | src/memory/SlicePool.cxx:383-394 | an area that was full comes first in the main list, so that the next slice is taken from it, one that is empty now first among the empty ones, and no other area moves |
| `SlicePool.AllReturned` | src/memory/SlicePool.cxx:379-394 | when everything was returned, only the list of empty areas is populated |
| `SlicePool.EmptiedIsFiled` | src/memory/SlicePool.cxx:381-394 | an emptied area goes to the empty areas if and only if it has at least two slices, to the main list if and only if it has one |
| `SlicePool.Pool.FindNonFullArea` | src/memory/SlicePool.cxx:287-297 | the first area of the main list, else an empty one, else none; it has a free slice |
| `SlicePool.Pool.AddArea` | src/memory/SlicePool.cxx:299-311 | a new area shares no slots with another one and is first among the empty ones |
| `SlicePool.Pool.FileAllocated` | src/memory/SlicePool.cxx:342-351 | the area moves to the full areas if it has become full, else to the main list if it was empty, and all areas stay filed |
| `SlicePool.Pool.FileFreed` | src/memory/SlicePool.cxx:381-394 | an area that was full moves to the front of the main list, another one that is empty now to the empty areas, and all areas stay filed |
| `SlicePool.Pool.AllocSlot` | src/memory/SlicePool.cxx:330-354 | hands out a slot that was free, of the first area that has one, else of a new one, and changes the slots of no other area |
| `SlicePool.Pool.Alloc` | src/memory/SlicePool.cxx:330-354 | the pointer lies inside the area and its slice was free |
| `SlicePool.Pool.FreeSlot` | src/memory/SlicePool.cxx:371-395 | returns one slot and files the area |
| `SlicePool.Pool.Free` | src/memory/SlicePool.cxx:356-395 | the slice is found by its pointer and returned |
| `SlicePool.Pool.AddStats` | src/memory/SlicePool.cxx:408-415 | adds the allocated slices of a list |
| `SlicePool.Pool.GetStats` | src/memory/SlicePool.cxx:417-428 | the net size is the number of live slices times their size |
| `IntrusiveList.Connect` | src/util/IntrusiveList.hxx:38-42 | one new link leaves all sequences linked that have no other link from or to its ends |
| `IntrusiveList.List.Insert` | src/util/IntrusiveList.hxx:575-594 | the ring stands for the sequence with the node inserted |
| `IntrusiveList.List.Unlink` | src/util/IntrusiveList.hxx:75-80 | the ring stands for the sequence without the node |
| `IntrusiveList.List.PushFront` | src/util/IntrusiveList.hxx:559-561 | the node is first |
| `IntrusiveList.List.PushBack` | src/util/IntrusiveList.hxx:563-565 | the node is last |
| `IntrusiveList.List.PopFront` | src/util/IntrusiveList.hxx:343-348 | yields the first item and keeps the rest |
| `IntrusiveList.List.Size` | src/util/IntrusiveList.hxx:271-276 | a walk round the ring counts the items |
| `IntrusiveList.List.ClearAndDispose` | src/util/IntrusiveList.hxx:299-303 | disposes of all items in order and leaves an empty ring |
| `IntrusiveList.List.RemoveAndDisposeIf` | src/util/IntrusiveList.hxx:314-333 | disposes of exactly the matching items in order and keeps the others in order |
| `IntrusiveList.MoveConstruct` | src/util/IntrusiveList.hxx:210-223 | the new list has all items, the old one none |
| `IntrusiveList.Swap` | src/util/IntrusiveList.hxx:232-260 | the lists have each other's items, empty or not |
| `IntrusiveList.Splice` | src/util/IntrusiveList.hxx:622-647 | a range moves to the position, both rings stay consistent |
| `IntrusiveList.SpliceAll` | src/util/IntrusiveList.hxx:653-656 | all items move to the position |
| `Walk.SoundStep` | src/Walk.cxx:30-182 | every step keeps: at most 4 queued walks, all of one client, who is the owner if there is one; replies go to the requester with its own number, each walk is answered at most once, and every walk is queued, answered or lost |
| `Walk.SoundRun` | src/Walk.cxx:30-182 | the same for every run |
| `Walk.NumberIs` | src/Walk.cxx:56-61 | the k-th walk after a reset has number 0, or (k-1) mod 255 + 1 |
| `Walk.SameNumber` | src/Walk.cxx:56-61 | exactly when two walks have the same number |
| `Walk.NumberedRun` | src/Walk.cxx:30-102 | in every run, the server gets these numbers between resets |
| `Walk.Compass` | src/Walk.cxx:120-151 | north is up, east is right, and a diagonal step is one step in each neighbouring direction |
| `Walk.WalkBack` | src/Walk.cxx:117-151 | walking on and back restores the position, in 16-bit arithmetic |
| `Walk.PlaceStep` | src/Walk.cxx:78-182 | the player's place after every event, in coordinates: an acknowledgement that finds a walk moves one field in the direction faced or only turns, a cancellation tells the place but not the height, a Start packet all, other events nothing |
| `Walk.ServerStep` | src/Walk.cxx:30-76 | what the server gets: a walk that is not refused, as the client sent it but under the next number; a resynchronization exactly after an acknowledgement of an unknown walk |
| `Walk.ReplyStep` | src/Walk.cxx:14-182 | what clients get at every event: refusals with the current place, and replies to the walk with the number, under the number that the client gave |
| `Walk.NumberStep` | src/Walk.cxx:56-102 | the next number after every event: one further for a forwarded walk, skipping 0; 0 after a cancellation, a chosen target, a resynchronization and a Start packet |
| `Walk.QueueRequested` | src/Walk.cxx:30-62 | the queue and its owner after a request: unchanged if it is refused, else the walk is last and the oldest one left out if the queue was full |
| `Walk.QueueAcked` | src/Walk.cxx:104-182 | the queue and its owner after an acknowledgement: exactly the walk that was found is gone, or all if none was |
| `Walk.QueueOther` | src/Walk.cxx:64-102 | the queue and its owner after the other events |
| `Walk.AcknowledgedWalk` | src/Walk.cxx:30-182 | for all places, clients and packets, a run of a request and its acknowledgement: the player is one field further or has turned, the server got the client's packet under the number 0, and the client is told under its own number |
| `Walk.CancelledWalk` | src/Walk.cxx:30-102 | a run of a request and its cancellation: the player is where the server says, at the old height, and the client is told that place under its own number |
| `Walk.DifferStep` | src/Walk.cxx:30-62 | queued walks keep different numbers if and only if no request is forwarded under a number that is still queued |
| `Walk.RestartDuplicates` | src/CHandler.cxx:227-233 | after a client's resynchronization or a Start packet two queued walks have the same number |
| `WalkOrder.RightUnlessCollides` | src/uo/WalkState.cxx:23-33 | in every state, the walk found for an in-order reply is the right one if and only if there is no collision: a queued walk that is not the one replied to nor behind it, forwarded equally long after a restart or a multiple of 255 apart |
| `WalkOrder.NextIsStep` | src/Walk.cxx:30-182 | every move of the system is a step of the protocol or does not reach it; the server has to reply exactly to what was forwarded to it, in order, and has acknowledged exactly what it replied to |
| `WalkOrder.TrackedStep` | src/Walk.cxx:30-182 | whatever happens, also when the server is lost or does not reply, queued and unanswered walks are in the order in which they were forwarded, with the numbers of their places after a restart |
| `WalkOrder.WrongStep` | src/Walk.cxx:104-182 | an acknowledgement is given for another walk exactly if it meets a collision while the queue has an owner |
| `WalkOrder.WrongRun` | src/Walk.cxx:30-182 | so such acknowledgements are counted exactly, from any state on |
| `WalkOrder.TruthfulStep` | src/Walk.cxx:104-182 | what clients were told stays true if and only if the event is no such acknowledgement |
| `WalkOrder.TruthfulRun` | src/Walk.cxx:30-182 | in all states of a run clients are told that they have walked only if the server acknowledged that very walk, if and only if no acknowledgement meets a collision |
| `WalkOrder.EveryRun` | src/Walk.cxx:30-182 | both for every run of the protocol, with all its events and lost connections |
| `WalkOrder.CarefulRun` | src/Walk.cxx:30-182 | no collision, and different numbers in the queue, in every run with at most 255 unanswered walks, all of them answered, and no restart or new connection behind the server's back |
| `WalkOrder.TargetTooSoon` | src/CHandler.cxx:256-265 | a run with two walks and a target between them in which the acknowledgement of the first is given for the second |
| `WalkOrder.NewServer` | src/Reconnect.cxx:22-91 | a run with two walks and a new connection between them in which the acknowledgement of the second is given for the first, which the new server has never seen |
| `WalkOrder.NumbersDistinct` | src/Walk.cxx:56-61 | queued walks have different numbers while they are among the unanswered ones, which are consecutive and at most 255 |
| `WalkOrder.LateServer` | src/Walk.cxx:104-182 | a run of 258 events, with 256 unanswered walks, in which a client is told wrongly that it has walked |
| `WalkState.Queue.Remove` | src/uo/WalkState.cxx:35-47 | removes one item and keeps the order of the others; an empty queue has no owner |
| `WalkState.Queue.PopFront` | src/uo/WalkState.cxx:8-21 | removes the first item |
| `WalkState.Queue.FindSequence` | src/uo/WalkState.cxx:23-33 | finds the first item with a number |
| `WalkState.Queue.Clear` | src/uo/WalkState.hxx:31-34 | empties the queue and keeps the counter |
| `WalkState.Queue.OnServerRemoved` | src/uo/WalkState.hxx:43-46 | only the owner's departure clears the owner |
| `WalkState.Connection.HandleWalk` | src/CHandler.cxx:76-106 | disconnects a client outside the game; else performs the protocol's step for a request; while reconnecting every walk is refused |
| `WalkState.Connection.OnWalkRequest` | src/Walk.cxx:30-62 | refuses other clients while walks are queued, cancels the oldest when full, renumbers and forwards |
| `WalkState.Connection.Resynchronize` | src/Walk.cxx:64-76 | forgets the queue and asks the server to resynchronize |
| `WalkState.Connection.OnWalkAck` | src/Walk.cxx:104-182 | performs the protocol's step for an acknowledgement, of which `Walk.PlaceStep`, `Walk.ReplyStep` and `Walk.QueueAcked` say what it does |
| `WalkState.Connection.OnWalkCancel` | src/Walk.cxx:78-102 | performs the protocol's step for a cancellation |
| `WalkState.Connection.Remove` | src/CServer.cxx:20-29 | a client that leaves is no longer the owner |
| `WalkState.Connection.HandleTarget` | src/CHandler.cxx:256-265 | choosing a target resets the walks, cancelling one does not |
| `WalkState.Connection.HandleResynchronize` | src/CHandler.cxx:227-233 | restarts the numbers and keeps the queue |
| `WalkState.Connection.HandleStart` | src/SHandler.cxx:105-123 | restarts the numbers at the new position |
| `Session.SameTextMeans` | src/uo/Packets.hxx:23-26 | comparing two buffers with strncmp() compares their texts |
| `Session.TextIs` | src/uo/Packets.hxx:23-26 | a text ends at the first zero or fills the buffer |
| `Session.SameMeans` | src/uo/Packets.hxx:23-26 | credentials agree exactly if both the names and the passwords do |
| `Session.SameIsEquivalence` | src/uo/Packets.hxx:23-30 | so equality of credentials is an equivalence |
| `Session.ValidAccountLogin` | src/CHandler.cxx:277-400 | an account login keeps the rules of sessions |
| `Session.ValidGameLogin` | src/CHandler.cxx:403-508 | a game login keeps them, with and without a placeholder |
| `Session.ValidReplaced` | src/CHandler.cxx:466-494 | a redirected client takes the place of its placeholder; nobody else is dropped |
| `Session.ValidPlayCharacter` | src/CHandler.cxx:510-537 | choosing a character keeps the rules |
| `Session.ValidPlayServer` | src/CHandler.cxx:567-658 | choosing a game server keeps the rules, attached or not |
| `Session.MovedIs` | src/CHandler.cxx:603-607 | moving a client to another connection changes no other client and connection |
| `Session.ValidOnStart` | src/SHandler.cxx:105-123 | a Start packet keeps the rules |
| `Session.ValidOnCharList` | src/SHandler.cxx:401-440 | a character list keeps the rules |
| `Session.ValidOnServerList` | src/SHandler.cxx:509-563 | a server list keeps the rules |
| `Session.ValidServerGone` | src/CClient.cxx:17-33 | a lost server keeps the rules |
| `Session.ValidGone` | src/CServer.cxx:31-44 | a client that has left is on no connection; the others stay as they were |
| `Session.ValidKicked` | src/CHandler.cxx:871-885 | so is one that was refused |
| `Session.ValidOnDisconnect` | src/LinkedServer.cxx:67-86 | a redirected client remains as a placeholder, any other one is removed |
| `Session.ValidAccepted` | src/Connection.cxx:24-44 | a new client has a connection of its own |
| `Session.ValidStep` | src/CHandler.cxx:277-658 | every event keeps: a client is on one connection that knows it, was let in with the connection's credentials, and before it has chosen a game server it is alone there |
| `Session.ValidRun` | src/CHandler.cxx:277-658 | the same for every run |
| `Session.FindAttach` | src/Listener.cxx:34-42 | yields the first connection in the list that fits if and only if there is one |
| `Session.FindOther` | src/Listener.cxx:44-54 | yields the first other connection for the same account and server if and only if there is one |
| `Session.FindZombie` | src/Listener.cxx:56-66 | yields a placeholder with this authentication id on the first connection with these credentials that has one, if and only if there is one |
| `SessionOutcomes.AccountLoginOutcome` | src/CHandler.cxx:277-400 | an account login from the state before it: refused, or SERVER_LIST exactly if a connection for the account can be joined, else ACCOUNT_LOGIN, with a connection attempt exactly if no list is configured |
| `SessionOutcomes.RelayLoginOutcome` | src/CHandler.cxx:428-506 | a redirected client that logs in on its old socket stays on its connection and gets IN_GAME if that is in the game, else CHAR_LIST if it has a list, else GAME_LOGIN |
| `SessionOutcomes.NewGameLoginOutcome` | src/CHandler.cxx:447-506 | a new client stays if and only if a placeholder with its credentials and id waits; then it takes its place and connection, the placeholder and its own connection are gone, and its phase is that of the placeholder's connection as before |
| `SessionOutcomes.RefusedGameLogin` | src/CHandler.cxx:403-508 | any other game login removes exactly that client |
| `SessionOutcomes.FoundWaits` | src/Listener.cxx:56-66 | the search finds a waiting placeholder if and only if there is one |
| `SessionOutcomes.PlayServerJoins` | src/CHandler.cxx:595-621 | if another connection for the account and server can be joined, the client is on such a one afterwards, its own one is gone and no client is; it is redirected with the id, or plays at once |
| `SessionOutcomes.PlayServerStays` | src/CHandler.cxx:622-658 | else it stays on its own one, with the chosen index; a configured server is connected to exactly if there is no login server, and an index that is not configured is refused |
| `SessionOutcomes.RefusedChoice` | src/CHandler.cxx:510-594 | a choice of a server or a character in any other phase removes exactly that client; in the right one, choosing a character changes only the phase |
| `SessionOutcomes.LeavingOutcome` | src/CServer.cxx:31-44 | exactly when the connection of a client that leaves or is refused goes on: with other clients, or in the background; a redirected client stays and loses only its socket |
| `SessionOutcomes.OrphanedOutcome` | src/CServer.cxx:20-44 | and nothing else changes: the other clients and connections are as before |
| `SessionOutcomes.StartOutcome` | src/SHandler.cxx:105-123 | a Start packet puts exactly the clients of its connection into the game |
| `SessionOutcomes.CharListOutcome` | src/SHandler.cxx:401-440 | a character list is remembered and moves exactly those clients of the connection to CHAR_LIST that wait for it, and none while reconnecting |
| `SessionOutcomes.ServerListOutcome` | src/SHandler.cxx:509-563 | a server list moves exactly those that wait for it to SERVER_LIST; the connection is given up exactly if the list is malformed, or out of order and nothing is reconnected |
| `SessionOutcomes.ServerGoneOutcome` | src/CClient.cxx:17-33 | a lost server is connected to again exactly if configured and in the game; else exactly the connection and its clients are gone |
| `SessionOutcomes.LinkOutcome` | src/SHandler.cxx:461-507 | a relay replaces the connection to the server unless the player is in the game; an attempt ends connected or not |
| `SessionOutcomes.AcceptOutcome` | src/Listener.cxx:21-27 | a new client is alone on a new, unused connection, which is first in the list, and nothing else changes |
| `SessionRuns.ActsStep` | src/CHandler.cxx:277-658 | a packet of one client changes no other client |
| `SessionRuns.LaterRun` | src/LinkedServer.hxx:54-116 | in every run, a client's state never goes back, and a client that has gone does not come back |
| `SessionRuns.LoginAssertions` | src/CHandler.cxx:308-317 | the connection of a client that logs in is unused, and it is not attached to its own connection |
| `SessionRuns.PlayServerAssertions` | src/CHandler.cxx:595-628 | a client that chooses a server is alone on its connection, and not connected if the server list is configured |
| `SessionRuns.SocketAssertions` | src/SHandler.cxx:430-436 | lists are sent to clients with a socket only |
| `SessionRuns.AttachDropsNobody` | src/CHandler.cxx:600-621 | the connection that is deleted when a client is attached has no other client |
| `SessionRuns.MatchesStep` | src/CHandler.cxx:429-438 | what clients have presented stays their connections' credentials if and only if the event is no game login of a redirected client with other ones |
| `SessionRuns.MatchesRun` | src/CHandler.cxx:277-508 | over whole runs: they match in all states if and only if that never happens |
| `SessionRuns.CredentialsCanDiffer` | src/CHandler.cxx:429-438 | a state that a run reaches in which they differ |
| `SessionRuns.GhostsStep` | src/SHandler.cxx:117-120 | a client without a socket gets into the game if and only if a Start packet meets a placeholder |
| `SessionRuns.GhostsCanAppear` | src/SHandler.cxx:117-120 | a state that a run reaches with a client in the game that has no socket |
| `SessionRuns.TimeoutAssertion` | src/LinkedServer.cxx:59-65 | otherwise a placeholder that times out is still in the redirected state |
| `SessionRuns.NobodyLogsIn` | src/CHandler.cxx:342-375 | with a configured server list no run gets a client past its account login |
| `SessionRuns.SomebodyLogsIn` | src/CHandler.cxx:376-394 | without one, and with a login server, some run does |
| `SessionRuns.WholeLogin` | src/CHandler.cxx:277-658 | with a login server and the redirect workaround, for all credentials and ids: a run of eleven events from the first connection through the server list, the redirect, the character list and the character choice into the game, with the phase after each event |
| `SessionState.Instance.FindAttachConnection` | src/Listener.cxx:34-42 | the loop over objects finds the connection that the specification names, or null if it names none |
| `SessionState.Instance.FindOtherConnection` | src/Listener.cxx:44-54 | the loop finds the other connection that the specification names, or null |
| `SessionState.Instance.FindZombieIn` | src/CServer.cxx:46-58 | the loop over one connection's clients finds the placeholder that the specification names, or null |
| `SessionState.Instance.FindZombieClient` | src/Listener.cxx:56-66 | the loop over all connections finds it |
| `SessionState.Instance.Add` | src/CServer.cxx:11-18 | the client is first in the connection's list and points back at it; the objects stand for the new state and no pointer leads to a deleted object |
| `SessionState.Instance.Remove` | src/CServer.cxx:20-29 | the client leaves the list of the connection that it points at, and points at none |
| `SessionState.Instance.BackPointer` | src/CServer.cxx:11-29 | a client is in the list of the connection that it points at, and in no other |
| `SessionState.Instance.NoneLeft` | src/Connection.cxx:46-51 | no client and no list outside a connection leads to it or to its clients |
| `SessionState.Instance.Delete` | src/LinkedServer.hxx:54-116 | a client without a connection can be deleted: no list holds it |
| `SessionState.Instance.RemoveCheckEmpty` | src/CServer.cxx:31-44 | deletes the connection with its last client unless it goes on in the background, and the client; the objects left stand for the new state |
| `SessionState.Instance.Destroy` | src/Connection.cxx:46-51 | deletes the clients of a connection one by one and the connection; exactly they are gone, and nothing left points at them |
| `SessionState.Instance.Kick` | src/CHandler.cxx:871-885 | removes a refused client; the objects left stand for the new state |
| `SessionState.Instance.HandleAccountLogin` | src/CHandler.cxx:277-400 | the objects perform the step of an account login, and no pointer leads to a deleted one |
| `SessionState.Instance.HandleGameLogin` | src/CHandler.cxx:403-508 | the same for a game login, in which a client can take the place of a placeholder; the phase that it gets is stated by `SessionOutcomes.RelayLoginOutcome` and `SessionOutcomes.NewGameLoginOutcome` |
| `SessionState.Instance.HandlePlayCharacter` | src/CHandler.cxx:510-537 | the same for a character choice |
| `SessionState.Instance.HandlePlayServer` | src/CHandler.cxx:567-658 | the same for a server choice, which can move the client and delete its connection |
| `SessionState.Instance.Move` | src/CHandler.cxx:600-621 | the client goes to another connection, its own one is deleted, and nobody else is affected |
| `SessionState.Instance.RedirectToSelf` | src/CHandler.cxx:539-565 | the client's object gets the authentication id and stands for the redirected client |
| `SessionState.Instance.Promote` | src/SHandler.cxx:119-120 | the loop over the connection's list sets the state of exactly the clients that it should |
| `SessionState.Instance.HandleStart` | src/SHandler.cxx:105-123 | the objects perform the step of a Start packet |
| `SessionState.Instance.HandleCharList` | src/SHandler.cxx:401-440 | the same for a character list |
| `SessionState.Instance.HandleServerList` | src/SHandler.cxx:509-563 | the same for a server list, which can delete the connection |
| `SessionState.Instance.HandleDisconnect` | src/LinkedServer.cxx:67-86 | the same for a disconnect, after which a placeholder stays or the client is gone |
| `SessionState.Instance.OnAccept` | src/Listener.cxx:21-27 | two new objects point at each other and stand for the new client and its connection |
| `Version.TokensTerminated` | src/CVersion.cxx:24-44 | every string is a list of (number, delimiter) tokens of which only the last one ends it |
| `Version.TokenOrderIs` | src/CVersion.cxx:24-44 | comparing token by token is the lexicographic order |
| `Version.ClientVersionCompare` | src/CVersion.cxx:16-45 | the loop ends on every pair of strings and computes that order |
| `Version.OrderIsTotalPreorder` | src/CVersion.cxx:16-45 | the comparison is a total preorder |
| `Version.DetermineProtocolVersion` | src/CVersion.cxx:47-62 | the highest protocol whose first version is not after the given one |
| `Version.DeterminedUnique` | src/CVersion.cxx:47-62 | that is one protocol |
| `Version.ProtocolIsMonotone` | src/CVersion.cxx:47-62 | a later version never gets a lower protocol |
| `Version.StrtoulOf` | src/CVersion.cxx:25-26 | a written number is read as it was written |
| `Version.StrtoulSigned` | src/CVersion.cxx:26-27 | blanks, a sign and digits are used up; too large a number becomes the largest one, a negative one wraps around |
| `Version.StrtoulNothing` | src/CVersion.cxx:26-27 | without a digit nothing is used and the number is 0 |
| `Version.DelimitersCompare` | src/CVersion.cxx:34-37 | after equal numbers the delimiters decide, as signed characters |
| `Version.WrittenVersionsCompare` | src/CVersion.cxx:16-45 | versions written as numbers with dots are compared number by number |
| `Version.FirstsAreWritten` | src/CVersion.cxx:50-58 | the first versions of the protocols are such versions |
| `Version.WrittenProtocol` | src/CVersion.cxx:47-62 | the protocol of every version written in numbers: V7 exactly from 7 on, V6_0_14 from 6.0.14, V6_0_5 from 6.0.5, V6 from 6.0.1.7 and V5 from 1 on, each up to the next |

## Left out

- Sockets, coroutines, SOCKS, UDP knock, signals and encryption; they appear as chunks
  of bytes, clock values and events that can happen at any time. Of the event loop,
  only how it drives the timers is modelled.
- Logging, the configuration file, the command line and console messages.
- The conversion between the protocol forms of an item's packets (src/Bridge.cxx), of
  which that of ground items has no inverse; the fields of a packet are one number in
  both forms.
- Giving back memory of unused slices (`SliceArea::Compress`), poisoning, huge pages,
  fork flags, the memory checker's branch of the allocator and the gross size in its
  statistics.
- What an attaching client gets besides the items: the Start packet, the map, the light
  and the mobiles with their equipment.
- The broadcast of the player's movement to the other clients after a walk.
- A placeholder that times out is deleted in the model; the program takes it off its
  connection and never deletes the object.
- Reconnecting: it appears as the events "connection lost" and "connection attempt
  started", and in `WalkOrder` as the loss of all walks that the server has to reply
  to; its timers and its repeated login are not modelled.
- The other packet handlers, which copy or forward a packet.
- World.World.ApplyIncoming: does not copy the position and appearance of the player's
  own mobile to the Start and MobileUpdate packets, and gets the pieces of equipment as
  a list; a mobile's packet is one value.
- The lists that hold the objects of the session component are sequences; the ring
  that links them is modelled in `IntrusiveList`. The zero_initialized and
  constant_time_size options of that list and splicing within one list are left out.
- Items and mobiles are entries of a sequence instead of linked objects.
- Timers are values in sequences, and a callback is the next entry of a script of
  calls to Schedule and Cancel. All terminating behaviour can be written so; a
  callback that schedules itself in the past forever is not covered. The clock does
  not advance while callbacks run, as the event loop caches it. Times are not
  negative.
- `buffer.Free()` of an empty receive buffer is modelled as clearing it.
- In `Codec`, a shift is a multiplication or division by a power of two and the
  bitwise "or" of the program is an addition; the inserted bits are zero before.
- SliceArea.GeometryIsValid: numbers are unbounded, where the program multiplies the
  numbers of pages and slices in 32 bits.
- `WalkOrder`: the server replies to walks in the order in which it gets them, though
  not to all, and a cancellation answers the later ones too. A server that does
  otherwise is covered by `Walk` only.
- `Session`: the saved server list, protocol versions, character and feature data,
  which do not influence the states. The authentication id of a redirect is an input.
- `Version`: the theorems hold for every function that reads numbers in the place of
  strtoul(); `Version.Strtoul` models the library function for base ten.
