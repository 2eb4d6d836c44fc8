# A verified model of rlaunch

rlaunch lets an Amiga (the target) mount the file tree of a PC (the
controller) over one TCP connection. This project models the four layers that
make that work, and proves what each of them, and their composition, promises.

* **The message compiler and its codecs** (`Schema`, `ByteOrder`, `Codec`,
  `RoundTrip`, `Decoding`, `RlNet`). A description file is compiled to message layouts, and
  layouts to encoders and decoders. Everything is proved for all descriptions
  without guards that have the common header, and then applied to the protocol's
  own messages. `RoundTrip` goes from messages to bytes and back, `Decoding` from
  bytes to messages and back.
* **The transport** (`Framing`, `Transport`, `EndToEnd`, `Outgoing`). `Framing`
  is the transport on values: a pure stream parser, which is the reference, and
  the two halves of the transport as state machines. `Transport` is the code on
  the heap: a fixed input buffer that is compacted in place, a linked output
  queue, a pool of buffers. Each of its methods is proved to do what `Framing`
  says. `EndToEnd` joins a sender and a receiver; `Outgoing` goes from a record to
  the queue; in `Answering` the delivery callback enqueues answers on the transport
  that delivers.
* **The peer protocol** (`PeerProtocol`, `PeerPair`). The table of states and
  actions as a class with the re-entrant calls of the source, proved against
  functions on values; and two peers joined by first-in first-out channels.
* **The remote file system**. `RemoteFs` has the client's handlers and the
  server's handlers as functions on values. `AmigaFs` and `FileServer` are the same
  on the heap: handles and operations that are changed in place, a linked list of
  pending operations, an array of slots. `FsSystem` joins client and server by two
  channels; `FsMatching`, `FsOwnership`, `FsContent` and `FsRefinement` prove what
  every run of the two keeps. `FsRoot` and `FsLocks` add the root directory, which all
  locks on it share, `FsOutput` the virtual output, `FsDrain` that operations end.
  `Reference` is the file system that callers are meant to see: positions in files and
  directories, without buffer, server or messages. `FsReplies` ties each reply to the packet
  it answers, and each handle to the packet that made it; `FsVerdicts` says why an open
  succeeds or fails, `FsFailures` why a read or a listing fails.
  `FsDriver` runs the objects of `AmigaFs` and `FileServer` against each other.
  `ReadCount`, `FsRounds`, `FsCounts` and `FsSequence` count the round trips of a read
  and of a write: of the loop, alone in the system, and with other operations between.
  `FsWire` and `FsTravel` show that the channels are what codec and transport
  provide; `FsJoint` runs client and server over two such connections, which carry
  pings, handshakes and other messages as well, and `FsRealised` is the converse.

A smaller fifth part, `Format`, is the bounded formatter and the string buffer.

## How the file system is modelled

A state holds the client, the two channels and the server's slots. A step is a
packet from AmigaDOS, the server taking a request, or the client taking an
answer, in any order. What the operating system decides (descriptors, failures
and their codes, how much a read delivers) is a parameter of the step. Three assumptions are
made, all in `FsSystem.Enabled` and `FsMatching.NoWrap`: a handle has at most one
operation at a time, because its caller blocks, and `complete_read` needs that; a lock
that owns a server slot is not duplicated; and fewer than 2^32 - 1 requests are sent.
The first does not go for listings of the root: all locks made for the root share
handle 0, so several callers may list it at the same time, and they do so in the model.
`FsOwnership.CopiesOwnExactly` says that the second is exactly what slot ownership needs,
`FsOwnership.DuplicateLocksShareASlot` what happens without it, and
`FsRounds.CopiesReadAlone` what still holds until a copy is closed.

A reply carries, besides the two result fields, what it told its caller. The log of
replies is compared with the reference: `Replay` is the state of the reference after
a log, and is defined only if the reference would have given each of these replies.
What a reply may tell depends on its packet: `FsReplies.RepliesFit` says so for every
kind of packet. The path that an open asks for is said there without the code's own
functions: what follows the first colon of the name, or else the name under the device,
or else the directory's path, a slash and the name, cut to 107 characters.

The server has one place in the root, and every lock that lists the root moves it: the
locks made for the root, which also share handle 0 and its flag, and by `action_parent`
every lock got as a parent, which has the root's id and a handle of its own. So what a
handle was told was not told to one caller. A labelling `who` says which lock each packet
is about, and `LockListing` is what one lock was told. `FsLocks.RootListedOnce` holds in
every run: a lock whose listing begins while nobody lists the root and its handle has
not begun, and whose listing goes on without other locks listing the root, is told every
entry once and in order before the end. `RootReplay` is the reference of all listings
together; it describes the runs in which the callers that share handle 0 take turns
(`FsRoot.InTurn`), and `FsLocks.TurnsAreNeeded` is a run of two that do not.
`Reference.DisturbsExactly` says when a reply to one lock moves the place of another: on
the same handle always, by the end of a listing too, but for an empty root; on another
handle while the other has begun, except by an end and except for a first entry that
leaves the place where it was. Two runs show what callers see: a second lock is told the
end without any entry (`FsLocks.SecondLockToldNothing`), and a new lock begins where a
freed one stopped (`FsLocks.NewLockMissesEntries`).

A write is told as done on every handle. What is printed is exactly what was written to
handles opened to print; for any other handle the data is lost (`FsOutput.PrintedIsWritten`).
The counts of requests hold while the server reads all it is asked for; the count of
chunks, and everything else but the reference for the root, holds for all runs.

Where the code and its comments differ, the code is followed:

* a seek before the start of a file is not refused but goes to its end
  (`Reference.NegativeSeekGoesToEnd`);
* "require exactly the same version" compares the major version only;
* a failed answering handshake is overwritten by the connected state, and the greeting
  of the application is sent after it (`PeerProtocol.FailedHandshakeIsMasked`);
* a parent that is not the root gets the root's id, and lists the root
  (`Reference.DisturbsExactly`);
* locks on the root share one flag, so one can end or continue the listing of another
  (`FsLocks.SecondLockToldNothing`, `FsLocks.NewLockMissesEntries`);
* a write to a handle that is no output is told as done and lost
  (`FsOutput.PrintedIsWritten`);
* a peer whose application refuses a message can run a table entry that is not
  defined, when more messages are in the same buffer
  (`PeerPair.UndefinedExactly`, `PeerPair.RefusalIsReachable`);
* a frame that declares length zero stalls the input, and a full buffer behind it
  reads as a disconnect (`Framing.RoomAfterUpdate` says exactly when,
  `Framing.ZeroLengthDisconnects` gives such a run);
* an encoder without strings and arrays does not look at the size it is given
  (`Codec.EncodeMessage`);
* a negative number does not fit in the digit buffer in binary
  (`Format.DigitsFit` says exactly when).

## Model

| member | source | states |
|---|---|---|
| ByteOrder.IntRoundTrip | src/protocol.h:83-156 | big-endian bytes of every width decode to the number they were made from |
| ByteOrder.BytesRoundTrip | src/protocol.h:83-156 | and every byte string is the encoding of the number it decodes to |
| ByteOrder.EncodeInt4 | src/protocol.h:139-156 | stores the four bytes at the cursor, nothing else, and moves the cursor past them |
| ByteOrder.DecodeInt4 | src/protocol.h:98-116 | reads the number whose big-endian bytes stand at the cursor |
| Base.MoveBytes | src/util.c:500-517 | the move is right for overlapping areas in both directions, and touches nothing else |
| Schema.Message.InsertField | src/mkmsg.py:59-67 | the three field lists and the running size stay consistent under appending and prepending |
| Schema.PrependAll | src/mkmsg.py:123-133 | reversing and prepending one by one puts the common fields in front in their own order |
| Schema.Mkmsg | src/mkmsg.py:90-133 | scanning and distribution fail exactly on misplaced field lines, and else leave every message laid out as Compile says, common fields of its kind first |
| Schema.RejectedExactly | src/mkmsg.py:97-133 | a description is refused exactly if it begins with the definition of a field |
| RlNet.DescribeCompiles | src/mkmsg.py:97-133 | every list of messages is what the compiler makes of its description |
| RlNet.RlNetCompiles | src/rlnet.msg:2-82 | the protocol's description compiles to its eighteen layouts, to which the codec theorems apply |
| RlNet.EveryMessageFits | src/transport.c:228-239 | every message of the protocol with strings up to 255 and arrays up to 4096 bytes fits in an 8192-byte buffer and is accepted by its encoder |
| Codec.EncodeString | src/protocol.c:27-46 | fails exactly if the string is longer than 255 or does not fit, and else stores length, bytes and NUL |
| Codec.EncodeArray | src/protocol.c:66-76 | fails exactly if the array does not fit, and else stores length and bytes |
| Codec.EncodeVars | src/mkmsg.py:212-213 | the generated steps for strings and arrays, which stop at the first that does not fit |
| Codec.EncodeMessage | src/mkmsg.py:190-217 | a generated encoder fails exactly on long strings and, if there are fields of variable length, on want of room; else it stores the wire image, with its length filled in last, whatever size it was told |
| Codec.AcceptsExactly | src/mkmsg.py:190-217 | with fields of variable length an encoder accepts exactly strings of at most 255 characters in a message that fits; without, everything, whatever the size |
| Codec.DecodeMsg | src/mkmsg.py:308-315 | the decoder table on a buffer in memory computes the decoding function, with its error and its overrun outcomes |
| RoundTrip.HeaderAgreement | src/peer.c:361-372 | byte 0 of an encoded message is its kind, and the length that the framing peeks is the length of the encoding |
| RoundTrip.EncodeMsg | src/mkmsg.py:317-328 | picks the encoder by kind; given room for the fixed part it succeeds exactly on messages that can be sent, with their wire image in the buffer |
| Decoding.TakenSizes | src/protocol.c:5-64 | for every schema, message and size: decoding a message cut to that size gives the message back, or is refused, exactly as the size leaves all of it but the last byte of a last string, or the last four of a last array |
| Decoding.TakenIsEncoded | src/mkmsg.py:171-217 | whatever bytes a decoder takes are a message of the kind in the first byte, encoded as the encoder does, but for strings cut at a NUL within; it has read no further than there are bytes |
| RoundTrip.CodecRoundTrip | src/mkmsg.py:171-217 | for every schema, decoding an encoded message gives it back with its length filled in, of the same kind, consuming exactly its bytes |
| Framing.ParsePartitions | src/transport.c:79-116 | the parser loses and invents no byte, and stops only before a frame that cannot be delivered |
| Framing.ParseAppend | src/transport.c:79-126 | parsing a stream in two pieces is parsing the first, then its rest with the second |
| Framing.FragmentationIndependence | src/transport.c:69-159 | for every stream and every way to cut it up, the frames delivered are those of the stream parser, and the buffer holds what it leaves |
| Framing.SameStreamSameFrames | src/transport.c:69-159 | two runs that received the same bytes delivered the same frames |
| Framing.RoomAfterUpdate | src/transport.c:118-126 | after an update without error the buffer is full if and only if it was full behind a frame that declares length zero |
| Framing.ZeroLengthDisconnects | src/transport.c:139-149 | the run in which a full buffer behind a declared length of zero reads as a disconnect, though the sender goes on |
| Framing.NoSpuriousDisconnect | src/transport.c:139-149 | a disconnect is reported only for a close or behind such a frame, and no deliverable frame is left when the close is noticed |
| Framing.DisconnectExactly | src/transport.c:134-149 | over any rounds of receiving and updating, a disconnect is reported exactly if one of them, wherever it stands, read a close, no bytes, or a buffer without room |
| Framing.ErrorExactly | src/transport.c:69-159 | as long as the stream has not ended, an error is reported exactly if a receive failed or the stream has come to a frame that is too long or not accepted |
| Framing.ErrorAfterEnd | src/transport.c:69-159 | after its end, exactly if that held then or a receive has failed since |
| Framing.AllTaken | src/transport.c:150-159 | what recv delivers is taken, all of it and in order |
| Framing.FlushFails | src/transport.c:161-190 | a failed send is reported exactly if the loop comes to it: something is left to send, and each send before took something |
| Framing.SendTakes | src/transport.c:161-190 | a send takes as many bytes as it says, and the loop goes on exactly if it took any |
| Framing.EnqueueConserves | src/transport.c:192-208 | adding a message keeps: bytes sent followed by bytes queued are the messages in order |
| Framing.FlushConserves | src/transport.c:161-190 | so does every sequence of partial, failing and blocking sends |
| Transport.Transport.AllocBuffer | src/transport.c:210-240 | takes the first pooled buffer, or a new one if there is memory; list and count stay right |
| Transport.Transport.FreeBuffer | src/transport.c:242-255 | gives a buffer to the pool while it holds fewer than four, else to the heap |
| Transport.Transport.AddOutputMessage | src/transport.c:192-208 | on the heap, adds at the tail of an acyclic queue, as Enqueue says |
| Transport.Transport.OnOutputPossible | src/transport.c:161-190 | on the heap, does what Flush says; queue and pool stay acyclic and disjoint |
| Transport.Transport.OnInputArrived | src/transport.c:134-159 | on the fixed buffer, does what Arrive says; disconnect is set exactly by a close, by no bytes and by want of room, error exactly by a failed receive |
| Transport.Transport.Update | src/transport.c:69-132 | the delivery loop and the compaction in place do what Deliver says, for a callback that decides on its frame alone, and report an error exactly for an earlier one or a refused frame, a disconnect exactly for one noticed before, and the need for output |
| Answering.UpdateAnswering | src/transport.c:69-132 | the same loop with a callback that enqueues answers on this transport: the frames are those of the stream parser, and the queue ends with their answers in order |
| Transport.Transport.Destroy | src/transport.c:45-67 | gives back every buffer of queue and pool, each once; only buffers that a caller holds stay in use |
| Outgoing.EnqueueOutputMessage | src/peer.c:41-74 | from a record to the queue: fails exactly for want of a buffer or of room in it, and then leaves the queue as it was |
| EndToEnd.DeliveredIsPrefix | src/peer.c:374-395 | for every schema and interleaving, what the receiver decodes is a prefix of the messages enqueued, each once, in order, unchanged but for the length, without error |
| EndToEnd.AllDelivered | src/transport.c:69-132 | once all bytes have arrived, an update leaves no message undelivered |
| EndToEnd.RoomAfterEveryUpdate | src/transport.c:134-149 | and never leaves the buffer full |
| PeerProtocol.PeerObject.InvokeAction | src/peer.c:333-359 | runs the table's action, with its re-entrant calls, to the state that the value-level function gives |
| PeerProtocol.PeerObject.SetState | src/peer.c:105-117 | calls the callback on a change to connected and only then |
| PeerProtocol.PeerObject.RunReceiveHandshake | src/peer.c:209-237 | answers, then connects, for the same major version; else fails |
| PeerProtocol.PeerObject.RunReceiveMessage | src/peer.c:254-284 | answers pings, takes answers, and hands the rest to the application |
| PeerProtocol.PeerObject.RunUpdateConnected | src/peer.c:295-317 | the watchdog on the object, as PingsExactly describes it |
| PeerProtocol.PeerObject.PeerUpdate | src/peer.c:481-513 | the actions of one update, and whether the peer is to be removed or needs output; a broken transport always removes it, and disconnects it from every state but the initial one |
| PeerProtocol.PingsExactly | src/peer.c:295-317 | an update of a connected peer with memory adds exactly one ping and sets the flag if and only if the silence is longer than 30 seconds (31 on the controller) and no ping is out, gives up if and only if one is and the silence is longer than twice that, and changes nothing else |
| PeerProtocol.PingWithoutMemory | src/peer.c:295-317 | without memory for the ping the peer fails |
| PeerProtocol.BrokenDisconnects | src/peer.c:493-499 | a broken transport disconnects the peer after the messages that came before, and sends nothing |
| PeerProtocol.ActivityIsLastTaken | src/peer.c:254-260 | the time of last activity is that of the last message of the update that was taken as traffic, or as before if none was |
| PeerProtocol.TakenInOrder | src/peer.c:374-395 | the messages of an update are taken one by one, in their order |
| PeerProtocol.TakesAll | src/peer.c:254-284 | a connected peer answers each message of an update in turn: a ping with an answer, an application's with what it says; an answer clears the flag |
| PeerProtocol.TakesHandshake | src/peer.c:209-237 | a waiting peer with memory connects exactly for the same major version; a target sends its handshake first and then the greeting, a controller the greeting |
| PeerProtocol.Begins | src/peer.c:405-462 | a controller with memory begins with its handshake sent, a target with nothing |
| PeerProtocol.BurstUntilFailure | src/peer.c:239-252 | if an allocation fails within a burst of messages, those before it are sent and none after it |
| PeerProtocol.FailedHandshakeIsMasked | src/peer.c:199-237 | for every greeting and every pattern of failing allocations, a peer counts itself connected without having sent a handshake exactly if it is a target, the majors agree and the first allocation fails |
| PeerPair.HandshakeSafety | src/peer.c:199-237 | over all runs with memory: one handshake each way and first; one connection each side, only after a handshake of the same major version; different versions never connect |
| PeerPair.UndefinedExactly | src/peer.c:319-359 | an undefined table entry runs exactly where a message is delivered to an end that has failed, which needs a refusal by its application |
| PeerPair.RefusalThenDelivery | src/peer.c:279-283 | and then it does run, from any pair that keeps the run invariant |
| PeerPair.RefusalIsReachable | src/peer.c:279-283 | a run from the start that gets there |
| PeerPair.AcceptingRunsAreDefined | src/peer.c:319-359 | while the applications accept every message, no undefined entry runs in any run |
| PeerPair.PingConservation | src/peer.c:254-284 | while both ends live, a side's flag is set exactly when one ping or its answer is in flight |
| PeerPair.WatchdogFires | src/peer.c:295-317 | in every run, the watchdog of a live connection sends one ping exactly with none outstanding and more than 30 or 31 seconds of silence, and gives up exactly with one outstanding and more than twice as many |
| PeerPair.SilenceEnds | src/peer.c:295-317 | a connection that stays silent is given up by two updates |
| FsMatching.OneMessagePerOperation | src/amigafs.c:1671-1688 | in every reachable state pending numbers differ, each operation has exactly one message in flight, its request or an answer of its kind or an error, and no message lacks its operation |
| FsMatching.NoBrokenAnswer | src/amigafs.c:1720-1760 | no answer is ever unmatched or of the wrong kind, so the connection is not ended |
| FsMatching.BrokenExactly | src/amigafs.c:1720-1760 | an answer ends the connection exactly if it has no operation or not the kind that its operation waits for; then that operation is over and told 218 |
| FsReplies.RepliesFit | src/amigafs.c:1547-1615 | in every run the reply to a packet tells about what it asked for: a read about its handle and count, a write about its data, an open about the path that its name stands for, and the shared root, the copy or the parent where there is one |
| FsReplies.RequestFor | src/amigafs.c:50-95 | a packet that opens something sends exactly one request, for the path that its name stands for in the directory it is relative to, unless it asks for the virtual input or the root |
| FsReplies.OnePath | src/amigafs.c:73-94 | a name stands for one path |
| FsReplies.HandlesAreMade | src/amigafs.c:1041-1139 | each handle is what the reply to one packet gave: its path is the name found, the path located, that of the copied lock or what stands before the last slash, and its kind and id are those of that object |
| FsReplies.OneHandle | src/amigafs.c:264-309 | a handle number stands for one object in the whole run |
| FsReplies.HandlesUntilFreed | src/amigafs.c:311-336 | a handle that was given is there exactly until its caller is told that it is freed |
| FsVerdicts.OpenVerdict | src/file_server.c:99-343 | in every run an open is told what the server found when it took its request: 218 if and only if all sixteen slots are owned then, else 205 for nothing at the path, 212 for a directory as a file, the one code of the operating system's reason, and otherwise success |
| FsFailures.OutcomesFit | src/file_server.c:506-586 | only files are read and only directories listed; a failed read is told 212 on the root and the virtual input and else 213, a failed listing 213 on a directory and else 212; no write fails |
| FsFailures.StrayRequests | src/file_server.c:618-641 | requests about unknown handles and messages that are no requests are refused with their codes, and change nothing |
| FsFailures.ErrorNumbers | src/amigafs.c:1690-1718 | the AmigaDOS number of every error |
| FsDrain.CallersCanAsk | src/amigafs.c:1547-1615 | whatever is under way, a handle without an operation takes every packet, and packets that open something are taken at any time |
| FsMatching.EveryPacketOnce | src/amigafs.c:1547-1615 | every packet taken is replied to once, or belongs to one operation, or was the one packet that is never answered |
| FsDrain.Drains | src/amigafs.c:1277-1418 | in every run, with no new packet, server and client can take only so many steps, however little each read delivers |
| FsDrain.CanEnd | src/amigafs.c:1671-1760 | and from any state with numbers left there is a way to a state without messages under way |
| FsDrain.AllReplied | src/amigafs.c:1547-1615 | in which every packet has been replied to exactly once, but for ACTION_DIE |
| FsOwnership.SlotOwnership | src/file_server.c:99-130 | slots in use are those of client handles, of open answers and of close requests in flight, all different, at most sixteen |
| FsOwnership.CopiesOwnExactly | src/amigafs.c:1041-1052 | duplicating a lock keeps the slots exclusive if and only if it is the root's or owns no slot |
| FsOwnership.DuplicateLocksShareASlot | src/amigafs.c:1041-1052 | with a duplicated lock that fails: the copy is left with a free slot |
| FsOwnership.TooManyMeansFull | src/file_server.c:113-130 | in every run an open is refused for too many files exactly when client handles and messages under way own all sixteen slots |
| FsRefinement.Refinement | src/amigafs.c:1160-1333 | every reply of every run is the one that the plain file system gives after the replies before it, for reads, seeks, opens and for listings of directories opened by path, with the result codes of refusals and failures, each for its reason; a write is told as done |
| FsRefinement.BufferAgrees | src/amigafs.c:1238-1260 | in every reachable state the read buffer of an open file is a piece of it, of at most 4096 bytes, and the offset is not beyond the end |
| FsRefinement.EnumerationComplete | src/amigafs.c:707-780 | a caller told that a directory opened by path has no more entries has been told each of them, once and in order, whatever the slot was used for before |
| FsRoot.WholeRefinement | src/amigafs.c:707-780 | every reply of every run in which the callers that share handle 0 take turns fits both references at once: the plain file system for handles, and one shared place in the root for the handles with its id |
| FsRoot.RootEnumerationComplete | src/amigafs.c:707-780 | in such runs a lock, told from others on its handle by who its packets are about, has been told each entry of the root once and in order when it is told the end, if its listing began at the start and no reply to another lock moved its place meanwhile |
| FsLocks.RootListedOnce | src/amigafs.c:707-780 | in every run, a lock whose listing of the root begins with its handle's flag clear while nobody lists the root, and that then alone lists it, is told each entry once and in order before it is told the end, whatever locks there are and whatever was listed before |
| FsLocks.SecondLockToldNothing | src/amigafs.c:250-262 | a run in which the first request of a second lock on handle 0 is told the end of a root that has an entry |
| FsLocks.NewLockMissesEntries | src/amigafs.c:311-336 | a run in which a lock is freed in the middle of a listing and a new lock on the root is told the next entry first |
| FsLocks.TurnsAreNeeded | src/amigafs.c:746-780 | a run of two locks that ask at the same time, whose replies the reference for the root does not give |
| Reference.DisturbsExactly | src/amigafs.c:1083-1139 | exactly when a reply to another lock, with a handle of its own or sharing handle 0, moves the place where a lock's listing of the root goes on |
| FsRefinement.ReadsAreConsecutive | src/amigafs.c:1277-1305 | the bytes delivered since a file was opened or sought are consecutive bytes of it |
| FsRefinement.ReadAnswersFit | src/file_server.c:538-573 | no read answer is longer than the client's buffer |
| Reference.SeekIsPlain | src/amigafs.c:1446-1478 | the 32-bit arithmetic of a seek is the plain seek, for files shorter than 2^31 bytes |
| Reference.NegativeSeekGoesToEnd | src/amigafs.c:1468-1474 | what a negative target comes to, for all three modes |
| Reference.ListingFollows | src/amigafs.c:746-780 | in a log of the plain file system, a listing has told the first entries of its directory |
| Reference.DeliveredFollows | src/amigafs.c:1292-1305 | and reads have delivered the bytes before the position |
| ReadCount.RequestCount | src/amigafs.c:1194-1235 | the number of requests for what the buffer does not have: enough for it, or enough for the rest of the file and one more |
| ReadCount.WholeReadRequests | src/amigafs.c:1160-1333 | a read delivers all that is asked for and there, with none or exactly as many requests |
| ReadCount.SequentialReads | src/amigafs.c:1277-1332 | of the loop: sequential reads of positive length from the start take as many requests as one read of them all |
| ReadCount.ChunksAre | src/amigafs.c:1383-1434 | the chunks of a write have at most 4096 bytes, together are its data in order, and are no more than needed |
| FsRounds.ReadTakesExactly | src/amigafs.c:1270-1333 | from an idle state there is a run that serves the read, and every such run takes as many round trips as the read has requests, possibly none, delivers its data and leaves an idle state |
| FsRounds.IdleInRun | src/amigafs.c:1671-1688 | every reachable state without messages under way is idle, for each of its open files |
| FsRounds.SequentialReadsInSystem | src/amigafs.c:1277-1332 | in the system, any positive reads of k bytes in all from a fresh handle can be served one after the other, and take k / 4096 requests, rounded up |
| FsRounds.CopyIsIdle | src/amigafs.c:1041-1073 | a copy of a lock on a slot, at rest, is open on the same file, at its start, and leaves the other as it was |
| FsRounds.CopiesReadAlone | src/amigafs.c:1041-1073 | of handles that share a slot, each read, one after the other, is served as if alone and leaves the others as they were |
| FsRounds.WriteTakesExactly | src/amigafs.c:1352-1418 | from a state without messages under way, a write can be served, and every run that serves it takes one round trip for each chunk and replies once, with its length; written to the virtual output it has been printed whole and in order |
| FsCounts.ReadRequestsInRun | src/amigafs.c:1160-1333 | whatever else is under way between, a read sends never more requests than it needs, and as many when it has been replied to, while the server delivers what it has |
| FsCounts.WriteChunksInRun | src/amigafs.c:1352-1434 | and in every run the chunks of a write that has been replied to have at most 4096 bytes, together are its data in order, and are no more than needed |
| FsSequence.SequentialReadsInRun | src/amigafs.c:1160-1333 | with operations of other handles between in any order, positive reads of k bytes in all from a fresh handle send k / 4096 requests, rounded up, when they are over, and never more |
| FsOutput.PrintedIsWritten | src/file_server.c:588-616 | in every run, what the server has printed for a handle opened to print is the data of its writes in order, up to what it has taken of the write under way; for any other handle it prints nothing |
| FsOutput.StdoutOfOne | src/file_server.c:600-613 | if one handle alone prints, the output is that |
| FsWire.MessageTravels | src/rlnet.msg:38-67 | every message of the file system can be sent in one output buffer |
| FsWire.ChannelIsFifo | src/peer.c:374-395 | what arrives over codec, queue and framing are the file system's messages, in order, each once, if only they are sent |
| FsTravel.MessagesInFlightTravel | src/mkmsg.py:171-217 | in every state of every run each message in flight can be sent as a record of the protocol and is read back as itself |
| FsJoint.JointRefinement | src/peer.c:361-395 | client and server over two connections with partial sends, arbitrary arrival and other messages between: every reply is the one that the plain file system gives, as over ideal channels |
| FsJoint.JointRootRefinement | src/amigafs.c:707-780 | and so for the root, where the callers that share handle 0 take turns |
| FsRealised.EveryRunIsJoint | src/transport.c:69-190 | conversely every run over ideal channels is what a run over the two connections comes to: whatever is sent can be brought across |
| FileServer.Controller.FindFree | src/file_server.c:113-130 | the search loop finds the first free slot or none |
| FileServer.Controller.Open | src/file_server.c:318-343 | the slot table and the answer after an open request for reading |
| FileServer.Controller.FindNext | src/file_server.c:372-504 | after a request for a directory entry |
| FileServer.Controller.FileServe | src/file_server.c:618-641 | the dispatch of all requests on the slot array, as Serve says, with an error answer for any other message |
| AmigaFs.ClientHandle.Serve | src/amigafs.c:1171-1193 | on the handle, what the read buffer gives |
| AmigaFs.ClientHandle.Take | src/amigafs.c:1277-1313 | on the handle, what an answer's data does to cursor and buffer |
| AmigaFs.FileSystem.AllocPending | src/amigafs.c:113-133 | a new operation comes first in the list |
| AmigaFs.FileSystem.FindPendingOp | src/amigafs.c:1672-1688 | finds the first operation with the number, or none |
| AmigaFs.FileSystem.UnlinkPending | src/amigafs.c:156-182 | takes one operation out of the linked list and leaves the others as they were |
| AmigaFs.FindSlash | src/amigafs.c:1104-1112 | finds the last slash |
| AmigaFs.FileSystem.OnRead | src/amigafs.c:1160-1222 | action_read on the heap |
| AmigaFs.FileSystem.OnReadAnswer | src/amigafs.c:1270-1333 | complete_read on the heap, with the operation queued again |
| AmigaFs.FileSystem.OnWriteAnswer | src/amigafs.c:1383-1418 | complete_write on the heap |
| AmigaFs.FileSystem.NormalizePath | src/amigafs.c:50-95 | computes, on the objects, the path that FsReplies describes |
| AmigaFs.FileSystem.ProcessFsPacket | src/amigafs.c:1547-1615 | the dispatch of packets to the handlers, which change handles and list in place as ProcessPacket says |
| AmigaFs.FileSystem.ProcessNetworkMessage | src/amigafs.c:1720-1760 | the dispatch of answers to the completions, as ProcessAnswer says, and when it ends the connection |
| FsDriver.RunSystem | src/amigafs.c:1720-1760 | the objects of client and server, run through any events, follow the run of the values, and their log is one that the reference would have given, and that of the root where callers take turns |
| Format.ParseDigits | src/util.c:193-229 | digits read back to their number, in every base |
| Format.DigitCount | src/util.c:193-229 | n digits are enough exactly for numbers below the n-th power of the base |
| Format.SignedReadsBack | src/util.c:193-213 | signed digits read back, minus sign included |
| Format.FormatDigits | src/util.c:215-229 | the backwards loop leaves the digits at the end of the local buffer |
| Format.DigitsFit | src/util.c:193-229 | the digit buffer is large enough for all conversions, except exactly that of a negative int to binary |
| Format.FormatString | src/util.c:231-247 | writes the field that PadIsField describes |
| Format.PadIsField | src/util.c:231-247 | a field is as long as the larger of its width and its text, holds the text at its beginning with a minus sign and at its end without, and fill characters otherwise |
| Format.RenderField | src/util.c:61-189 | wherever it stands in a format, a directive with flags and width writes the next argument as such a field, and the rest of the format follows: for d, u, x and b the number's own digits, for c and s the character and the text, for p the address in brackets |
| Format.FieldAlone | src/util.c:61-189 | so does a format that is one directive |
| Format.RenderOther | src/util.c:172-183 | a percent sign writes itself, every other letter nothing |
| Format.DigitsAreNumeral | src/util.c:193-229 | the digits of a number are its numeral in the base, without idle zeros |
| Format.Writer.Write | src/util.c:370-381 | what has been written stays the beginning of what was offered, as long as there is room |
| Format.FormatMessage | src/util.c:61-189 | all chunks together are the rendering of the format |
| Format.FormatMsg | src/util.c:383-399 | for every defined format and arguments, the buffer holds the first size - 1 characters of the whole rendering, and a NUL |
| Format.DecimalReadsBack | src/util.c:104-109 | the number is read back from the field that a decimal directive writes, with nothing but spaces around it, for every width and alignment |
| Format.StringBuffer.Append | src/util.c:609-618 | any sequence of appends leaves the first size - 1 characters of all of them, and a NUL; the result says whether all have fitted |

## Left out

- Sockets, select loops, address resolution, process launching and the event loop of the target: send and receive are arbitrary byte counts within their bounds; the peer list is not modelled.
- The Windows branches, and file descriptors as such: a slot's descriptor is some positive number, and the tree served does not change. The POSIX close condition never closes a descriptor; slot release is what is proved.
- Volume mounting, locks as BCPL pointers, logging, file test programs, build files and compiler drivers.
- Packets that are answered at once with constants (set comment, rename, inhibit and the like), information about volumes, examination of an object, and packets with a null lock are one generic case, which replies once, with its constants. Result fields that hold a lock pointer are modelled as success.
- Guarded fields and the generated descriptions of messages: no schema uses guards.
- Running out of memory in the file system client, in particular the path of `action_locate_object` that uses an operation it never set; `ACTION_DIE` is counted as never answered.
- Sequence numbers that wrap around: the file system results are for fewer than 2^32 - 1 requests.
- Duplicated locks on server slots are excluded from the runs; with copies only reads one after the other are treated, before a copy is closed.
- The directory lock of a file to open, which the source ignores too. A path is computed once, when its request is sent; the source computes it again when the answer comes.
- Names in packets are text without NUL that fits the buffers they are copied to; native paths are not cut at 260 characters.
- The decoders' slack bounds: a decoder may look two bytes past the size it is given, or wrap its size; the model has an overrun outcome for that and the round trip does not meet it. Arrays are shorter than 2^31 - 4 bytes.
- The virtual input: on POSIX its descriptor is zero, which every read takes for no file.
- Time is a number given to each action; application callbacks and refusals are a parameter of each action.
- The 8192 bytes of a transport buffer and the 4096 of a read buffer are values inside their node, as in the source, where they are part of the structure; the encoder writes to an array that the node then takes over.
- The handlers of single packets and answers on the heap are in `AmigaFs` and `FileServer` with their contracts, without a row each: they are what the two dispatchers promise.
- Codec.EncodeMessage: requires memory for the fixed part and for the size it is told, where the source writes without looking.
- RoundTrip.EncodeMsg: requires the same, and a kind that is in the table, beyond which the source reads.
- Outgoing.EnqueueOutputMessage: requires a fixed part of at most 8192 bytes, for the same reason.
- AmigaFs.ClientHandle.Take: requires that an answer's data fits the buffer, as the source's copy does without looking; `FsRefinement.ReadAnswersFit` shows that the server's answers do.
- AmigaFs.FileSystem.OnReadAnswer: requires the same of the answer, for the same reason.
- AmigaFs.FileSystem.ProcessNetworkMessage: requires the same of read answers, for the same reason.
- AmigaFs.FileSystem.AllocPending: does not model a failed allocation.
- AmigaFs.FileSystem.OnRead: does not model a failed allocation.
- FileServer.Controller.FindNext: does not model failures of opendir and readdir themselves; that of stat is an error answer.
- FileServer.Controller.Open: models the reading mode, the only one that the client asks for.
- Schema.Mkmsg: starts from lines split into words; unknown types and a wrong word for a section, which stop the compiler, are not modelled.
- Transport.Transport.Destroy: does not say that the input buffer is released as well, once.
- PeerProtocol.PeerObject.PeerUpdate: takes what the socket did from the transport's status; sending and receiving are in `Transport`.
- Answering.UpdateAnswering: when memory fails it promises the input side and a well-formed queue, not which of the answers are queued.
- AmigaFs.FileSystem.ProcessFsPacket: has the packets with constant replies as one case, and no failed allocation.
- FsRoot.WholeRefinement: requires that callers which share handle 0 list it one at a time; each caller blocks, but two callers may ask at once. FsLocks.RootListedOnce does without it.
- FsRoot.RootEnumerationComplete: requires the same.
- FsJoint.JointRefinement: pings, handshakes and other messages are sent at any time; that the peers' states allow them is not part of it.
- Format.FormatMessage: does not model the conversions for Amiga strings; numbers are those of a 64-bit host.
- Format.FormatMsg: does not model them either.
