# A model of micserver and its properties

micserver is a Go framework of server modules that talk to each other over framed byte streams.
This project models its protocol core in Dafny and proves what it is for: that messages arrive as
they were sent, that two modules that dial each other settle on one connection, that every process
learns where the remote objects are, and that sessions merge without losing their keys.
`dafny verify dfyconfig.toml` checks everything.

| file | what it models |
|---|---|
| `Basics.dfy` | optional values, bytes, little-endian numbers |
| `WireFormat.dfy`, `WirePanics.dfy` | the generated message format for any message layout: nested size-prefixed frames, nil markers, lists, maps, strings; and what it is in single bytes, what its readers make of malformed input, and where they can panic |
| `FieldIO.dfy`, `FieldMaps.dfy` | the pieces that the generated read, write and size functions are made of |
| `ServerMessages.dfy`, `SessionMessages.dfy`, `RocMessages.dfy` | six representative messages as read and write methods over byte buffers, and the object-binding id list |
| `IOBuffer.dfy` | the sliding, growing and shrinking byte buffer |
| `Codec.dfy` | the resumable frame decoder |
| `TcpConn.dfy` | batching of outgoing messages, the receive loop, and delivery from one server to another |
| `MessagePool.dfy` | message objects, their buffers, and the size-classed pool |
| `ServerPool.dfy`, `Subnet.dfy` | the connection pool and what a module does about dials, logins, answers and closes |
| `SubnetProtocol.dfy`, `SubnetProgress.dfy` | two modules that may dial each other at once, as a transition system, and that they must settle |
| `RocCache.dfy` | the per-process cache of object locations |
| `RocServer.dfy` | bind messages, the snapshot for a joining peer, and batching |
| `RocDirectory.dfy`, `RocDelivery.dfy` | the directory over all runs of all modules, as a transition system, and what deliveries do |
| `RocObjects.dfy` | the server objects as an implementation of the directory's steps |
| `RocConvergence.dfy` | what a process gets to know of its own and of other modules' objects, and when |
| `RocPath.dfy` | printing and parsing of remote call paths |
| `Sessions.dfy`, `SessionUpdate.dfy`, `SessionManager.dfy` | sessions, their index, and the merging of session updates |
| `UniqueId.dfy` | the id generator |

Code that updates things in place is a class or a method with loops. Each such method is proved
against a function of values, and the laws are lemmas about those functions; the functions on pools
and session stores are generic in what a connection or session is, so that the classes (objects) and
the protocols (names) share them. Clocks, random priorities, unique ids, the network's fragmentation
and failures, the order in which Go iterates over maps, and the scheduler's choices are parameters or
left open, so the claims hold for all of them.

Where the code does not meet what it is meant for, the model follows the code, and the exact
condition is proved:

- The ids of an `SROCBind` message are all written and read at one offset, so a list survives the wire
  if and only if its ids are all equal (`RocMessages.BindIdsRoundTrip`). The directory's convergence is
  therefore a claim about messages as values; on the wire it needs messages with one id.
- A message without fields, such as the empty `SLogoutCommand`, or a frame cut down to nothing, is read
  back as nil (`WireFormat.RoundTrip`, `WireFormat.CutAtField`).
- With equal priorities two crossing dials leave each module with its own connection
  (`SubnetProtocol.Agreement`, `SubnetProtocol.EqualPrioritiesDisagree`).
- A client connection loses a message if and only if it does not fit sixteen times the default length of
  the send buffer together with what a failed write has left there: the failure is logged, and no error
  reaches the caller (`TcpConn.ClientBatch`). On a server connection a batch behind such a rest is kept whole
  if and only if both fit the buffer (`TcpConn.ServerBatchFits`).
- A write that fails after some bytes leaves all of them in the buffer, so they go out again: the wire
  carries the messages and nothing else if and only if no failed write took anything (`TcpConn.WireIsOutput`).
- A receive buffer is stuck for ever exactly when it has grown to its limit and is full, which takes a
  decoder that waits for more than that (`TcpConn.StuckExactly`, `TcpConn.StuckWhenTooLong`).
- A reader of a map looks for the length of a string without testing that there is one. No reader panics
  with four more bytes behind its input, or without a map in its message (`WirePanics.NeverPanics`); with
  fewer bytes behind it a session update that is cut off in its map does
  (`SessionMessages.CutMapPanics`).
- `MoveStart` refuses a move that leaves content in the buffer (`IOBuffers.IOBuffer.MoveStart`).
- The session merge law holds exactly for consistent updates, and an update keeps the session index
  exactly when it does not change the uuid of an indexed session (`SessionUpdates.MergeLaw`,
  `SessionUpdates.UpdateKeepsIndexed`).
- Modules of one process share a cache and are not sent each other's objects; but a connection does not
  know its peer's module id until the login, so before that a module posts on connections inside its own
  process too. An object that is added before such a login and taken away after it can stay in the
  process's cache for good (`RocConvergence.StaleInside`).
- With several message threads (`msgthreadnum`, `conf/define.go:25`) a receiver hands what comes before the
  login to its first thread and what comes after it to the thread that the sender's id selects
  (`server/subnet/subnet_handler.go:38-60`). So a bind message from before the login can be processed after an
  unbind message from behind it, and the object stays in the cache of another process for good
  (`RocConvergence.StaleAcrossLogin`). A process can be relied on to know a module's objects if and only if
  no other module of it shares the process with that module or uses another thread for it
  (`RocConvergence.KnowsExactly`). Otherwise, in every state of a run the process will know exactly the
  module's objects, once introduced and with nothing under way, if and only if no object is added or taken
  away while a lane to the process that is not posted on any more still carries, as its last word on the
  object, the opposite (`RocConvergence.ConvergesExactly`).
- An object that moves between modules ends up at the new one exactly when the old module's add was
  the first message to arrive (`RocCache.MoveInterleaved`).
- With two links to one process, draining one of them is not enough (`RocConvergence.OneLinkIsNotEnough`): it
  is exactly if the cache was right before about each object that the drained queue says nothing of, and, on
  a lane that is not posted on any more, its last words are true (`RocDelivery.OneLaneAgrees`).
- A printed path is read back exactly under the condition of `RocPath.RoundTrip`.

## Model

| member | source | states |
|---|---|---|
| Bytes.NumRoundTrip | servercomm/command_binary.go:701-717 | a number written with a fixed width reads as that number modulo the width's range |
| Bytes.BytesRoundTrip | servercomm/command_binary.go:701-717 | bytes read as a number and written again are the same bytes |
| Bytes.PutNum | servercomm/command_binary.go:709-717 | the width's bytes are stored at the offset, everything around them stays |
| WireFormat.ObjReads | servercomm/command_binary.go:1343-1403 | a frame written by any version of any message, nested frames of any versions included, followed by anything, reads as the reader's view of it and is skipped to its exact end |
| WireFormat.RoundTrip | servercomm/command_binary.go:795-866 | write then read returns the same value and size whatever follows, if and only if the message has fields or is nil |
| WireFormat.ExtraBytesIgnored | tools/go2go.py:37-38 | bytes that a newer writer adds behind the known fields change nothing and are skipped |
| WireFormat.CutAtField | tools/go2go.py:37-38 | a frame cut behind its first k fields reads as those fields and zero values, if and only if k is positive; otherwise as nil |
| WirePanics.NeverPanics | servercomm/command_binary.go:1504-1536 | for any bytes: no reader panics that has four more bytes behind its input, or whose message holds no map at any depth |
| WirePanics.FourBytes | servercomm/command_binary.go:709-717 | numbers go out with the low byte first |
| WirePanics.ShortString | servercomm/command_binary.go:709-717 | a length of four bytes in front of a string or byte slice, and four bytes of 255 for a nil slice, map or list |
| WirePanics.ShortMap | servercomm/command_binary.go:1557-1569 | a count of four bytes in front of the entries, each its key and then its value |
| WirePanics.ShortList | servercomm/command_binary.go:1389-1400 | a count of four bytes in front of the objects, each with its own length, which is zero for a nil one |
| WirePanics.BadFrames | servercomm/command_binary.go:795-816 | too few bytes for a length, or a zero length, read as nil; a frame that announces more than there is reads as zeros, four bytes long |
| WirePanics.BadLengths | servercomm/command_binary.go:701-707 | a string longer than what is left reads as empty and reading goes on behind its length; a byte slice that is too long ends the reading |
| WirePanics.BadEntry | servercomm/command_binary.go:1518-1533 | where a map that is cut off in an entry stops, panics or takes an empty value |
| FieldMaps.EnumerationSize | servercomm/command_binary.go:1573-1585 | every enumeration order of a map takes the same number of bytes |
| FieldMaps.GetSizeMap | servercomm/command_binary.go:1573-1585 | the size loop adds up to the bytes of the map whatever the order |
| FieldMaps.WriteMap | servercomm/command_binary.go:1540-1571 | exactly the count and the entries of some enumeration are written, nothing else is touched |
| FieldMaps.TakeMap | servercomm/command_binary.go:1504-1536 | the read loop builds the map of the entries in their order, stops early or panics exactly where the format's reader does |
| FieldMaps.LaterEntryWins | servercomm/command_binary.go:1518-1533 | of several entries with one key the last one counts |
| FieldIO.WrittenBytes | servercomm/command_binary.go:839-858 | what "written at an offset" means in all writers' contracts, byte for byte: nothing around it changes |
| ServerMessages.WriteModuleInfo | servercomm/command_binary.go:839-858 | exactly the computed size is written, and it is the encoding of the value |
| ServerMessages.ReadModuleInfo | servercomm/command_binary.go:795-837 | a fresh object reads what the format's reader reads, for any bytes |
| ServerMessages.ModuleInfoRoundTrip | servercomm/command_binary.go:795-866 | a written value, nil included, and only it, is what the reader returns, with the size computed beforehand |
| ServerMessages.InfoLayout | servercomm/command_binary.go:839-858 | id, address, number and version on the wire, in this order and these widths |
| ServerMessages.WriteLoginRet | servercomm/command_binary.go:1189-1203 | exactly the computed size is written, and it is the encoding of the message, nil included, with its nested frame |
| ServerMessages.ReadLoginRet | servercomm/command_binary.go:1154-1187 | a fresh object reads what the format's reader reads, for any bytes |
| ServerMessages.LoginRetRoundTrip | servercomm/command_binary.go:1154-1211 | a written message, nil or not, its destination nil or not, and only it, is what the reader returns |
| ServerMessages.LoginRetLayout | servercomm/command_binary.go:1189-1203 | code and nested destination on the wire, in this order |
| ServerMessages.MixedVersionLoginRet | tools/go2go.py:37-38 | a frame cut behind the code, or with extra bytes, reads as the message with exactly the fields that are there |
| ServerMessages.GetSizeNotifyAllInfo | servercomm/command_binary.go:1406-1419 | the size loop computes the length of the encoding |
| ServerMessages.WriteNotifyAllInfo | servercomm/command_binary.go:1381-1403 | exactly that many bytes are written, and they are the encoding, of a nil message too |
| ServerMessages.ReadNotifyAllInfo | servercomm/command_binary.go:1343-1379 | the list loop reads what the format's reader reads, for any bytes; the list has the announced length, which is made before the first element is read, however short the frame is |
| ServerMessages.NotifyAllInfoRoundTrip | servercomm/command_binary.go:1343-1419 | the written message, nil or with a list that is nil, empty or has nil elements, and only it, is what the reader returns |
| ServerMessages.MixedVersionsInList | tools/go2go.py:37-38 | a list whose elements come from different versions, extended or cut: what the reader returns is exactly the list of its views of each, and the message ends at the right place |
| SessionMessages.GetSizeUpdateSession | servercomm/command_binary.go:1573-1585 | the size for any iteration order of the map |
| SessionMessages.WriteUpdateSession | servercomm/command_binary.go:1540-1571 | exactly that many bytes are written, the encoding with some enumeration of the map, or of nil |
| SessionMessages.ReadUpdateSession | servercomm/command_binary.go:1473-1538 | for any bytes: panics exactly where the format's reader does, and otherwise returns what it reads |
| SessionMessages.UpdateSessionRoundTrip | servercomm/command_binary.go:1473-1585 | in any enumeration order the written message, nil or not, is read to its end without a panic, and only that message is |
| SessionMessages.UpdateLayout | servercomm/command_binary.go:1540-1571 | from, to, connection id, uuid and session on the wire, in this order |
| SessionMessages.MixedVersionUpdate | tools/go2go.py:37-38 | a frame cut behind its first k fields, or with extra bytes, reads as the message with exactly from, to, connection id, uuid and session kept up to the k-th, by name, and the rest empty |
| SessionMessages.CutMapPanics | servercomm/command_binary.go:1504-1536 | a frame whose map is cut off behind its count makes the reader panic if and only if fewer than four bytes follow it |
| SessionMessages.WriteFromGate | servercomm/command_binary.go:1998-2038 | exactly the computed size is written, map, number and byte slice included, or nil |
| SessionMessages.ReadFromGate | servercomm/command_binary.go:1918-1996 | for any bytes: panics exactly where the format's reader does, and otherwise returns what it reads |
| SessionMessages.FromGateRoundTrip | servercomm/command_binary.go:1918-2052 | as for the session update, with a nil or empty byte slice kept apart |
| SessionMessages.FromGateLayout | servercomm/command_binary.go:1998-2038 | from, to, connection id, session, id in two bytes and data on the wire, in this order |
| SessionMessages.MixedVersionFromGate | tools/go2go.py:37-38 | a frame cut behind its first k fields, or with extra bytes, reads as the message with exactly those fields kept, by name |
| RocMessages.WriteRocRequest | servercomm/command_binary.go:2204-2234 | exactly the computed size is written, signed number and flag included, or nil |
| RocMessages.ReadRocRequest | servercomm/command_binary.go:2142-2202 | a fresh object reads what the format's reader reads, for any bytes |
| RocMessages.RocRequestRoundTrip | servercomm/command_binary.go:2142-2243 | a written request, nil or not, and only it, comes back |
| RocMessages.RequestLayout | servercomm/command_binary.go:2204-2234 | from, to, number in two's complement, call, argument and a flag byte of 0 or 1 on the wire, in this order |
| RocMessages.MixedVersionRequest | tools/go2go.py:37-38 | a frame cut behind its first k fields, or with extra bytes, reads as the request with exactly those fields kept, by name |
| RocMessages.WriteIds | servercomm/command_binary.go:2410-2420 | the offset never moves: only the last id is left where the ids start |
| RocMessages.ReadIds | servercomm/command_binary.go:2379-2390 | every element is read at the same offset |
| RocMessages.BindIdsRoundTrip | servercomm/command_binary.go:2386-2389 | a written id list comes back if and only if all its ids are equal; of any other list every element is the last one |
| RocMessages.BindIdsCounterexample | servercomm/command_binary.go:2417-2420 | two different ids, of which the first is lost |
| IOBuffers.IOBuffer.Grow | util/buffer/io_buffer.go:66-76 | content moves to the front unchanged |
| IOBuffers.IOBuffer.Resize | util/buffer/io_buffer.go:79-90 | content moves into a new array of the given size |
| IOBuffers.IOBuffer.ReadFromReader | util/buffer/io_buffer.go:103-135 | appends what fits of the bytes at hand after shrinking, sliding or doubling; a failed read appends nothing |
| IOBuffers.IOBuffer.SeekAll | util/buffer/io_buffer.go:150-155 | all the content, still there afterwards |
| IOBuffers.IOBuffer.Read | util/buffer/io_buffer.go:158-175 | drops and takes exactly the bytes asked for, or fails, with the right error, and changes nothing |
| IOBuffers.IOBuffer.Write | util/buffer/io_buffer.go:178-210 | appends all bytes or, exactly when they do not fit, fails and leaves the content as it was |
| IOBuffers.IOBuffer.MoveStart | util/buffer/io_buffer.go:213-223 | the exact move empties the buffer, a shorter one is refused, a longer one breaks it |
| IOBuffers.StepIsFifo | util/buffer/io_buffer.go:66-223 | every operation keeps the capacity bounds and is a step of a first-in first-out queue |
| IOBuffers.RunIsFifo | util/buffer/io_buffer.go:66-223 | over any run, content and accepted bytes are the consumed bytes and the new content, and the capacity stays between the default and sixteen times it |
| IOBuffers.RunBuffer | util/buffer/io_buffer.go:66-223 | the buffer object under any run of operations does what the queue does |
| Codec.DefaultCodec.ReadHead | msg/codec.go:193-208 | takes the header's fields over, and refuses a total length under six |
| Codec.DefaultCodec.RangeMsgBinary | msg/codec.go:122-191 | the resumable loop emits, fails and leaves behind exactly what the stream decoder does on the buffer's content |
| Codec.DecodeProgress | msg/codec.go:134-189 | after a decode without error less is left than the pending header or body needs, and it is a suffix of the input |
| Codec.DecodeResumes | msg/codec.go:122-208 | for any bytes, decoding a part and then the rest gives the same messages, state and failure as decoding all at once |
| Codec.AnyFragmentation | msg/codec.go:122-208 | the same for any number of fragments |
| Codec.OneFrame | msg/codec.go:122-208 | a frame of any length gives its message if it is no longer than 8 MiB and nothing else; a header with a length under six is consumed and reported |
| Codec.StreamDecodes | msg/codec.go:62-191 | a stream of frames decodes to its messages, ids and bodies unchanged, in order |
| Codec.PrefixDecodes | msg/codec.go:122-191 | any cut of such a stream decodes without error to a prefix of the messages |
| Codec.DecodeKeeps | msg/codec.go:150-185 | the messages are the frames of the stream without those too large for a pooled buffer |
| Codec.DecodeConserves | msg/codec.go:122-208 | no byte is lost or made up: the input is its frames encoded again, the offending header if any, the pending header, and the rest |
| TcpConn.TCPConn.NextMsg | network/tcpconn/tcp_conn.go:327-359 | a batch takes a further message only while fewer than 200 are in it and there is room for the largest one |
| TcpConn.TCPConn.JoinMsgByFunc | network/tcpconn/tcp_conn.go:404-429 | never overruns the 200 slots; the batch is the front of the queue and the buffer holds what its writes leave |
| TcpConn.TCPConn.SendMsgList | network/tcpconn/tcp_conn.go:324-392 | the joined bytes go out in one write, which may fail after any number of bytes and then leaves all of them in the buffer; each message of the batch, sent or not, is finished once |
| TcpConn.TCPConn.AsyncSendCmd | network/tcpconn/tcp_conn.go:274-320 | on any connection, however the messages are batched and whichever writes fail after however many bytes: each message is finished exactly once, in queue order; what has gone out for good and the buffer together hold whole messages of the queue in its order, and what a failed write took besides is the beginning of what comes next; with a server's buffers and successful writes all messages go out and nothing else does |
| TcpConn.WireIsOutput | network/tcpconn/tcp_conn.go:371-383 | the wire carries what the successful writes took and nothing else if and only if no failed one took anything |
| TcpConn.BatchKept | network/tcpconn/tcp_conn.go:404-429 | a batch adds whole messages to the buffer, in order, those that fit |
| TcpConn.ServerBatchFits | network/tcpconn/tcp_conn.go:336-341 | with a server's fixed buffer, whatever a failed write has left in it, a batch is kept whole if and only if it fits behind that; in an empty buffer every batch does |
| TcpConn.ClientBatch | network/tcpconn/tcp_conn.go:336-341 | with a client's small buffer, whatever it holds and has grown to, every message goes alone; it is appended if and only if content and message fit sixteen times the default, and otherwise the content stays as it was |
| TcpConn.TCPConn.RecvOnce | network/tcpconn/tcp_conn.go:455-476 | one round, in a fixed or a growing buffer: what has been received is the decoding of the bytes taken so far, and bytes are taken unless too much is awaited |
| TcpConn.TCPConn.RecvThread | network/tcpconn/tcp_conn.go:432-478 | over any arrivals and time-outs the same, and every arrival makes progress as long as what is awaited fits the buffer: its default length on a server connection, sixteen times that where it may grow |
| TcpConn.Room | util/buffer/io_buffer.go:103-135 | a decoder that did not fail leaves room for the next read, in a fixed or a growing buffer, unless it waits for more than the buffer's limit |
| TcpConn.StuckExactly | util/buffer/io_buffer.go:103-135 | reads take nothing any more exactly when the buffer is full at its limit; then more than that is awaited, and the buffer stays as it is |
| TcpConn.StuckWhenTooLong | msg/codec.go:134-189 | a full buffer is stuck if and only if the decoder waits for more than it holds |
| TcpConn.SendAll | network/tcpconn/tcp_conn.go:274-429 | a server connection puts the frames of the accepted messages on the wire |
| TcpConn.SentExactly | msg/codec.go:62-100 | the encoder accepts exactly the messages whose frames are shorter than 8 MiB, in order |
| TcpConn.ReceiveAll | network/tcpconn/tcp_conn.go:432-478 | a connection, its buffer fixed or growing, receives the decoding of what arrived, and all of it if nothing longer than its limit is awaited |
| TcpConn.ProductiveCounts | network/tcpconn/tcp_conn.go:455-476 | the reads that count are those that bring at least one byte |
| TcpConn.Deliver | network/tcpconn/tcp_conn.go:274-478 | end to end, for any messages, batching and fragmentation and a receive buffer of any size, fixed or growing: no failure, always a prefix of the accepted messages in order, and once enough reads found bytes all of them if and only if no body is longer than the buffer can get |
| TcpConn.DeliverToServer | connect/define.go:23-29 | between server connections: messages whose frames are shorter than 8 MiB arrive, all of them and in order, once enough reads found bytes |
| MessagePool.SizeControlIsTable | util/pool/flexiable_pool.go:83-96 | the default size table is increasing and covers the largest message |
| MessagePool.GetIndex | util/pool/flexiable_pool.go:27-39 | the smallest class that is big enough, or -1 exactly when there is none |
| MessagePool.GetIndexSafety | util/pool/flexiable_pool.go:42-54 | the largest class that the size covers, or -1 exactly when there is none |
| MessagePool.FlexiblePool.Get | util/pool/flexiable_pool.go:56-69 | any size up to the largest class gets the first message pooled in the smallest class that is enough, or a new one of that size, which nobody else holds |
| MessagePool.FlexiblePool.GetMessageBinary | msg/pool.go:32-44 | so a message with a buffer of at least the length asked for, or none exactly above the largest class |
| MessagePool.FlexiblePool.Put | util/pool/flexiable_pool.go:71-81 | the message goes to the end of the largest class that its buffer covers, or nowhere; no two messages share a buffer |
| MessagePool.FlexiblePool.Free | msg/message_binary.go:33-53 | a held message is reset and given back once |
| MessagePool.FlexiblePool.ReadInto | msg/message_binary.go:90-115 | for any offsets and count: refused, or a panic exactly if one of them is negative, or the part is copied, into a swapped-in buffer if the own one is too small; buffers stay unshared |
| MessagePool.MessageBinary.SetProtoDataBound | msg/message_binary.go:123-132 | for any offset and count: refused exactly if the end is outside the buffer, else a panic exactly if one of them is negative, else the bound is set |
| MessagePool.FlexiblePool.EncodeBytes | msg/codec.go:62-100 | the message's first bytes are length, id and body if that is less than 8 MiB, and it is empty otherwise |
| MessagePool.FlexiblePool.MakeMessage | msg/codec.go:150-185 | a received frame's message holds the id and the body; refused exactly above the largest class |
| MessagePool.WriteHead | msg/codec.go:102-110 | length and id in front, the rest untouched |
| ServerPools.IndexedKept | connect/server_pool.go:192-269 | adding, renaming and removing keep every entry under its own connection's id |
| ServerPools.ServerPool.NewServer | connect/server_pool.go:30-61 | a new connection under the given id, or under its own if that is empty; counter and index kept |
| ServerPools.ServerPool.RemoveServer | connect/server_pool.go:192-204 | the connection is shut down and its entry removed; counter and index kept |
| ServerPools.ServerPool.ChangeServerTempid | connect/server_pool.go:224-241 | the entry moves to the new id, or nothing happens exactly when that is taken; counter and index kept |
| ServerPools.ServerPool.Len | connect/server_pool.go:244-249 | the link counter is the number of entries |
| Subnet.LoginKeepsIndexed | server/subnet/subnet_server.go:17-77 | a login keeps every entry under its own connection's id |
| Subnet.LoserCloses | server/subnet/subnet_handler.go:22-24 | the better connection takes the worse one's place, and closing the loser does not unindex the winner |
| Subnet.SubnetManager.ConnectServer | server/subnet/subnet_connecter.go:76-142 | dials, or asks over a channel, exactly when there is no connection under the id yet |
| Subnet.SubnetManager.OnAccept | server/subnet/subnet_server.go:132-160 | an accepted connection is entered under a unique id |
| Subnet.SubnetManager.ProcessChanServerRequest | server/subnet/subnet_server.go:220-271 | the two-step channel handshake, each step only without a connection to the peer |
| Subnet.SubnetManager.OnServerLogin | server/subnet/subnet_server.go:17-83 | on objects what the login step is on values: ignored for a better or equal connection of ours, else ours is displaced and the new one takes the peer's id |
| Subnet.SubnetManager.OnLoginRet | server/subnet/subnet_handler.go:99-119 | a refusal terminates the connection, an acceptance names the peer |
| Subnet.SubnetManager.OnConnectClose | server/subnet/subnet_handler.go:22-24 | the entry under the connection's current id is removed |
| SubnetProtocol.LoginEffect | server/subnet/subnet_server.go:17-77 | in any reachable state, what a login does at a module whose own dial is absent, better, worse or broken |
| SubnetProtocol.StepKeepsInv | server/subnet/subnet_server.go:17-271 | every step of dial, accept, handshake, login, answer and close keeps the protocol invariant |
| SubnetProtocol.ExecInv | server/subnet/subnet_connecter.go:76-154 | so every reachable state has it |
| SubnetProtocol.Agreement | server/subnet/subnet_server.go:25-44 | whenever no login is on its way: with crossing dials both modules index one connection if and only if the priorities differ, and then the one with the higher priority; with one dial that one |
| SubnetProgress.StepShortens | server/subnet/subnet_server.go:17-271 | every possible step uses up one of what can happen in all: dials, packets under way, accepting ends and breaking ends; no connection is lost by it |
| SubnetProgress.RunsSettle | server/subnet/subnet_server.go:17-271 | no run has more than 14 steps, and where none is possible any more nothing is on its way, the modules have settled, and both ends of a connection agreed on know each other |
| SubnetProgress.BecomesQuiet | server/subnet/subnet_server.go:17-271 | any run can be brought to such an end, and the connections that were up still are |
| SubnetProgress.CrossingDialsSettle | server/subnet/subnet_server.go:25-44 | for any two priorities a run with both dials up that becomes quiet; if they differ the modules then use the one with the higher priority |
| SubnetProtocol.WinnerKnowsPeer | server/subnet/subnet_handler.go:113-118 | both ends of the connection agreed on know each other, and the loser's dialing end is terminated |
| SubnetProtocol.EqualPrioritiesDisagree | server/subnet/subnet_server.go:30-43 | a run with equal priorities after which the modules use different connections |
| RocCache.HistoryLaw | roc/cache.go:66-121 | after any history a module is the host of an object if and only if it was the last to set it and has not deleted it since |
| RocCache.MoveCommutes | roc/cache.go:66-109 | once the old host is known, the new host's add and the old host's delete commute, and the object ends at the new host |
| RocCache.MoveInterleaved | roc/cache.go:66-121 | of all interleavings of such a move exactly those that begin with the old host's add end at the new host |
| RocCache.Cache.Set | roc/cache.go:66-73 | the two-level table changes as the one map from objects to hosts does |
| RocCache.Cache.SetM | roc/cache.go:76-85 | the same for many ids at once, repeated ones included |
| RocCache.Cache.Del | roc/cache.go:88-96 | takes the object out exactly if the module is its host |
| RocCache.Cache.DelM | roc/cache.go:99-109 | the same for many ids at once |
| RocCache.Cache.Get | roc/cache.go:112-121 | the host, or the empty string |
| RocCache.Cache.RangeByType | roc/cache.go:124-145 | calls back once for each object of the type on an allowed module, all of them unless stopped |
| RocServer.ROCServer.RecordLocalObj | server/rocserver.go:354-375 | the module's own objects gain or lose exactly this one |
| RocServer.ROCServer.SendROCBindMsg | server/rocserver.go:490-498 | a peer gets the message once if its id is not one of the process, an unknown id included, and nothing otherwise |
| RocServer.ROCServer.OnROCObjAdd | server/rocserver.go:378-401 | own cache, own objects and the messages or the queue all reflect the new object |
| RocServer.ROCServer.OnROCObjDel | server/rocserver.go:404-427 | the same for an object that goes |
| RocServer.ROCServer.OnMsgROCBind | server/rocserver.go:501-510 | the cache changes as the message says |
| RocServer.ROCServer.OnServerJoinSubnet | server/rocserver.go:309-350 | a joining peer outside the process is sent a snapshot: each local object exactly once, one type a message, the size estimate at most half the largest message without the last id |
| RocServer.SnapshotNamesOnce | server/rocserver.go:316-348 | a snapshot names each local object once and no other, under the module's own id |
| RocServer.SnapshotIsSmall | server/rocserver.go:328-346 | without its last id, a snapshot's message has at most 4 MiB of ids, their lengths included |
| RocServer.ROCServer.Collect | server/rocserver.go:174-196 | collects objects of one type up to 100, keeps the first one of another type aside, loses none |
| RocServer.ROCServer.RocObjNoticeProcess | server/rocserver.go:430-487 | sent and kept objects are the taken ones in order, each batch one type and 1 to 100 long, and unless stopped nothing from before the last tick is kept; of objects of one type, without a tick, every full hundred is one message |
| RocDirectory.SnapshotFinal | server/rocserver.go:320-348 | a snapshot binds exactly the local objects |
| RocDirectory.ChangeTracks | server/rocserver.go:378-427 | adding or taking away an object keeps caches and lanes in step with its owner; what a process is going to know stays right exactly if the change is careful towards it |
| RocDirectory.StepKeepsInv | server/rocserver.go:309-510 | registering, unregistering, connecting, logging in on either side, joining and delivering from either lane, inside a process and between processes, keep what lanes and caches say about every object in step with its owner |
| RocDirectory.RunKeepsInv | server/rocserver.go:309-510 | over every run |
| RocObjects.Change | server/rocserver.go:378-427 | a server object that shows a module's state in the directory shows it after the directory's change too, and its peers have been sent exactly what that gives to their links, those of unknown modules included |
| RocObjects.PostsIfOutside | server/rocserver.go:490-498 | a link posts in the directory exactly if its peer's id is not one of the process |
| RocObjects.Connect | connect/server_pool.go:30-61 | the same for a connection that enters the pool |
| RocObjects.Login | server/subnet/subnet_handler.go:113 | the same for a peer that shows its id |
| RocObjects.Join | server/rocserver.go:309-350 | the same for a peer that joins: what it is sent is a snapshot that the directory allows, or nothing inside the process |
| RocObjects.Receive | server/rocserver.go:501-510 | the same for a message that arrives |
| RocDelivery.DeliveriesShorten | server/rocserver.go:501-510 | every delivery leaves one message less under way |
| RocDelivery.DrainReplays | server/rocserver.go:501-510 | any lane can be drained, which replays its messages on the peer's cache and touches no other |
| RocDelivery.OneLaneAgrees | server/rocserver.go:490-510 | in every reachable state, for any lane of a module to a process: its messages replayed on the process's cache make that agree with the module if and only if the lane's last words are true and the cache is right about every object that it says nothing of; on the lane in use the last words are true |
| RocConvergence.SettlesExactly | server/rocserver.go:309-510 | from a state that keeps the invariant, a process, the module's own or another, will know exactly the module's objects, however a run goes on without changes, if and only if every last word under way on an object is true, and where there is none the cache is, as far as the process was told |
| RocConvergence.ConvergesExactly | server/subnet/subnet_handler.go:38-60 | in every state of a run a process will know exactly the module's objects if and only if every change was careful: no lane to the process that is not posted on any more still carried, as its last word on the object, the opposite |
| RocConvergence.InOrderIsCareful | server/subnet/subnet_handler.go:156-169 | towards another process that uses one thread for the module, before the login and after it, every change of every run is careful |
| RocConvergence.KnowsExactly | server/subnet/subnet_handler.go:38-60 | for a module that can have any object at all: in all runs a process, once introduced and with nothing under way from the module, knows exactly its objects, if and only if no other module of the process shares it with the module or uses another thread for it after the login |
| RocConvergence.QuietAgrees | server/rocserver.go:309-350 | in every state reached in order or by careful changes, a process that was sent a snapshot, or is the module's own, and has nothing more to hear from it knows exactly its objects, late joiners included |
| RocConvergence.DrainingConverges | server/rocserver.go:490-510 | under the same condition: when what is under way has been delivered, in whatever order of the lanes, the process knows exactly the objects that the module had, and still has |
| RocConvergence.DeliveryGetsThere | server/rocserver.go:490-510 | whatever has been delivered since a reachable state, some more deliveries leave nothing under way, no run of deliveries is longer, and then, under the same condition, every process that was introduced to a module knows its objects |
| RocConvergence.PendingReplayed | server/rocserver.go:490-510 | under the same condition, when all that is under way from a module to a process is on one lane: the cache with that lane replayed knows exactly its objects |
| RocConvergence.OneLinkIsNotEnough | server/rocserver.go:490-498 | with two links to a process a run after which one drained link leaves a stale object, though the module is heard in order |
| RocConvergence.StaleInside | server/subnet/subnet_server.go:75 | for any two modules of one process a run, with a change that was not careful, after which nothing is under way and the process still believes in an object that is gone |
| RocConvergence.StaleAcrossLogin | server/subnet/subnet_handler.go:38-60 | the same for any two modules of two processes of which one uses another thread for the other after the login |
| RocPath.KstrDecode | roc/path.go:26-48 | the loop over the first part computes the scan that the laws are about |
| RocPath.ROCPath.O | roc/path.go:17-22 | a path with type and id, without names, at its start |
| RocPath.ROCPath.NewROCPath | roc/path.go:51-62 | a new path with what the string parses to |
| RocPath.ROCPath.F | roc/path.go:98-105 | one more name at the end |
| RocPath.ROCPath.String | roc/path.go:108-114 | the printed form |
| RocPath.ROCPath.Move | roc/path.go:88-95 | the name at the position, which advances, or the empty string at the end |
| RocPath.SplitSuffix | roc/path.go:53-60 | printed names without dots are split apart again |
| RocPath.DecodeHead | roc/path.go:26-48 | type and id are read back, or both lost if there is an id without a type |
| RocPath.OnlyType | roc/path.go:26-48 | a first part without brackets is all type |
| RocPath.OpenBracket | roc/path.go:26-48 | the closing bracket may be missing |
| RocPath.TextBehind | roc/path.go:26-48 | text behind empty brackets is read as part of the type |
| RocPath.TextBehindId | roc/path.go:26-48 | text behind an id loses both type and id |
| RocPath.PrintedIs | roc/path.go:108-114 | a path prints as type, id in brackets, and a dot with each name |
| RocPath.RoundTrip | roc/path.go:51-114 | a printed path parses to itself if and only if type and id have no dot or bracket, there is no id without a type, and no name has a dot |
| RocPath.ParseIsStable | roc/path.go:51-114 | whatever was parsed, printing and parsing it again changes nothing |
| Sessions.RunKeepsIndexed | session/manager.go:25-120 | over every run of creating, setting, storing, updating, rebinding and deleting, every key is the uuid inside its session, and no session has two keys |
| Sessions.LoadOrStoreKeeps | session/manager.go:38-56 | entering a session under a free key keeps the index if and only if the key is its own uuid and not empty |
| Sessions.SetDataKeeps | session/session.go:252-266 | changing a session's content keeps the index if and only if it is not indexed or keeps its uuid |
| Sessions.UpdatedKeeps | session/manager.go:67-80 | an update from a map keeps the index if and only if the map gives no other uuid |
| Sessions.UpdatedMerges | session/manager.go:67-80 | the session that has the uuid already keeps its values and takes over only missing ones from the given session, the map overrides both, and no other session changes |
| Sessions.ReboundMerges | session/manager.go:89-120 | rebinding loses no key: existing, then old, then the session itself, then the new uuid, under which alone it is found |
| Sessions.ReboundKeeps | session/manager.go:89-120 | rebinding always keeps the index |
| SessionUpdates.MergeLaw | server/servercmd_handler.go:78-113 | after an update the managed session is local, overridden by connected, overridden by the message, and is the client's own object, if and only if the client's session does not bring another uuid in |
| SessionUpdates.SyncMerges | session/session.go:205-212 | a message that a session with a uuid makes of itself always merges on any receiver, and none of its values is lost |
| SessionUpdates.SyncMergesOnly | server/servercmd_handler.go:78-113 | a message that carries its own uuid always merges, into the client's own session if the client is connected, and nothing but that session and the entry under the uuid changes |
| SessionUpdates.NoUuid | server/servercmd_handler.go:78-93 | without a uuid only the connected client's session takes the message in |
| SessionUpdates.UpdateKeepsIndexed | server/servercmd_handler.go:78-113 | an update that does not panic keeps the index if and only if it does not change the uuid of an indexed session |
| SessionManagers.Session.FromMap | session/session.go:252-256 | the map's values replace the session's, in any order |
| SessionManagers.Session.ToMap | session/session.go:242-249 | a copy of everything the session holds |
| SessionManagers.Session.OnlyAddKeyFromSession | session/session.go:261-266 | only missing keys are taken over, also from the session itself |
| SessionManagers.Session.GetServerSyncMsg | session/session.go:205-212 | content, connection id and uuid of the session |
| SessionManagers.SessionManager.Store | session/manager.go:25-36 | entered under its own uuid, not at all without one |
| SessionManagers.SessionManager.LoadOrStore | session/manager.go:38-56 | the session under the key, or the given one, now stored there |
| SessionManagers.SessionManager.MustUpdateFromMap | session/manager.go:67-80 | on shared objects what the update is on values; panics exactly without a uuid |
| SessionManagers.SessionManager.UpdateSessionUUID | session/manager.go:89-120 | on shared objects what rebinding is on values |
| SessionManagers.ServerCmdHandler.OnUpdateSession | server/servercmd_handler.go:78-113 | on shared objects, client and managed session possibly the same one, what the update is on values |
| SessionManagers.ServerCmdHandler.Sync | session/session.go:205-212 | end to end: what a session tells of itself reaches, at the gate that has the connection it names, that very client's session, which then holds all its values and is found under its uuid |
| UniqueId.DecimalReads | util/uid/uniqueid.go:58 | printed numbers differ when the numbers do |
| UniqueId.Digits | util/uid/uniqueid.go:58 | digits are decimal, the highest first |
| UniqueId.GenAdvances | util/uid/uniqueid.go:25-59 | the duplicate check never fires, an id is refused exactly for an early clock or a full counter, and each id is a larger packed value followed by the module number |
| UniqueId.GenReadsClock | util/uid/uniqueid.go:35-58 | an id is the clock's second and a counter from 0 when the clock has moved on, else the last second and the next counter, each followed by the module's 16 bits |
| UniqueId.FirstId | util/uid/uniqueid.go:25-59 | a thousand seconds after the epoch the first id of module 7 is 4294967296007 |
| UniqueId.NeverRepeats | util/uid/uniqueid.go:25-59 | for any sequence of clock readings, backwards or wrapped, ids strictly increase and none is given twice |
| UniqueId.RestartIsSafe | util/uid/uniqueid.go:35-58 | a module that starts again at a later second than all readings of an earlier run gives only larger ids than that run |
| UniqueId.AcrossModules | util/uid/uniqueid.go:55-58 | modules with different numbers never give the same id |
| UniqueId.UniqueIDBuilder.GenUniqueID | util/uid/uniqueid.go:25-59 | the in-place update computes the step that the laws are about; with a clock that has moved on the id's number is second, zero counter and module number |

## Left out

- RocMessages.WriteIds: only the id list of `SROCBind` is modelled on bytes, not the fields before it, which are as in the other messages.
- ServerMessages.ReadModuleInfo: reads into a fresh object, as all callers in the repository do; the guards use the old field lengths, so reading into a used object may stop early.
- TcpConn.Deliver: all writes succeed; callbacks of the receiver are the list of messages; that a receive thread ends when the connection's state changes is not modelled.
- MessagePool.FlexiblePool.Get: that `sync.Pool` may drop objects is only modelled as finding none.
- IOBuffers.IOBuffer.SeekAll: returned slices are values, so a caller that keeps one while the buffer slides is not modelled.
- SubnetProtocol.Agreement: each module dials the other at most once, unique ids are unused, and connections only close because they lost; reconnection, time-outs and the cleanup of refused connections are not modelled.
- RocDirectory.StepKeepsInv: messages are values, each object has one owner, no module has the empty id, links do not close, and sending and recording are one step; the asynchronous mode is modelled up to its queues and batches, not the order between its add and its delete channel.
- RocConvergence.KnowsExactly: each lane of each connection is processed in its own order, but two lanes in any order, also where one thread has both, such as the late lanes of two connections between the same two modules.
- RocServer.ROCServer.RocObjNoticeProcess: a thread that waits for ever on its channel is modelled as one whose events have run out.
- SessionManagers.ServerCmdHandler.OnUpdateSession: what the sessions hold after a panic is left open.
- RocPath.KstrDecode: strings are sequences of characters; invalid UTF-8, which Go's loop replaces, is not modelled.
- RocCache.Cache.RangeByType: the callback is modelled by when it stops the iteration; it does not change the cache.
- Strings in messages are byte sequences and elsewhere character sequences; no character encoding is modelled.
- The other generated messages: their layouts are instances of the format that `WireFormat` is about, but they have no methods of their own here.
- `DefaultEncodeObj`: the same frame as `DefaultEncodeBytes` around a body that the message writes itself.
- Blocking remote calls and their answers, the load-based and random pickers, the routing of client messages, and the gate are not part of this model.
- Sockets, deadlines, timers, goroutines, panic recovery, logging, configuration and HTTP: plumbing without algorithmic content.
