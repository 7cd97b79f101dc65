# Models of EPICS Base 3.14.8.2 and proofs about them

The files model seven parts of EPICS Base and prove properties of the models. All of them are
checked together by `dafny verify dfyconfig.toml`.

* **The Channel Access byte stream** (`Wire`, `Request`, `Outgoing`, `Sender`, `Server`, `ComBuf`,
  `ComQueSend`, `ComQueRecv`, `TcpSend`, `Circuit`, `Transfer`). `Wire.dfy`, `Request.dfy` and
  `Outgoing.dfy` say what a byte stream means: headers, the frames of every kind of message a
  client sends, and the messages a stream decodes to. `Sender.dfy` is the way from what a client
  asks for to a message: the checks, the version of the server, the state of the circuit.
  `Server.dfy` is the other end: what a server reads out of a message, written from the server's own
  jump table; every request is understood there as it was meant. A buffer
  is a class over a real array, proved against a small value type; the send queue and the receive
  queue are classes whose lists hold such values, proved against one plain byte sequence.
  `TcpSend.dfy` flushes the queue while other threads go on queueing, `Circuit.dfy` decodes what
  arrives, and `Transfer.dfy` connects the two sides: whatever is accepted on one side comes out on
  the other, and says there what was asked for here, for any partial sends and any cutting of the
  stream. The buffer size is any number of
  at least 40; the original has 16384 (base/src/ca/comBuf.h:38).
* **Access security** (`AccessRules`, `AccessState`, `AccessEngine`, `AccessConfig`). The engine is
  one class with the lists of the original as fields. Its invariant ties the incrementally updated
  caches to an evaluation from scratch; every call and every input event keeps it, including a
  change of the whole configuration while clients are connected.
* **Breakpoint tables** (`BreakTable`, `BreakFirstEntry`), with exact real numbers for doubles and
  the table and the breakpoints as arrays changed in place.
* **Requests in flight** (`ClientIO`): the table of identifiers, the queues of the channels, and a
  log of what users and circuits see.
* **Outstanding reads and connections** (`OutstandingIO`): the counter and the sequence number
  behind `ca_pend_io`.
* **Trap-write listeners** (`TrapWrite`).
* **Small arithmetic**: the beacon period estimator (`BeaconPeriod`) and the VAX and IEEE floating
  point formats (`VaxFloat`).

`Options.dfy`, `Lists.dfy`, `Arithmetic.dfy` and `Sealing.dfy` hold what several parts share. Each
locked section of the original is one step. What other threads, sockets, clocks and user callbacks do
comes in as parameters or as an arbitrary choice: how much the socket takes each time, what other threads
queue in the meantime, how many send buffers there are and when there is memory for a large body, which
responses a client finds good, what a server answers, which requests a circuit throws at, what a listener
leaves. Nothing fails without such a reason.

Where the code does not do what one might expect, the models follow the code, and the exact condition
is stated:

* The function that frames a write accepts an empty array and writes a header that promises eight
  bytes or more which never follow (`Requests.BodyLength`, `Requests.EmptyArrayIsNoMessage`). No
  client can get there: both of its callers come through checks that refuse an empty array
  (base/src/ca/nciu.cpp:342, base/src/ca/nciu.cpp:364), and every request that passes its checks
  frames correctly (`Senders.PreparedAgrees`).
* A subscription is cancelled with its count modulo 2 to the 16. Before version 4.9 a cancellation
  is refused, and throws, exactly when that is 0xffff (`Senders.RefusedOnlyCancel`); no subscription
  that could be asked for has such a count (`Senders.CancelAfterSubscribe`).
* When there is no memory for the large message body cache, the body is skipped; if the memory is
  there when more of that body arrives, the response is executed all the same, and its body is right
  exactly if the new memory happens to hold what was thrown away (`Circuits.LateMemory`). Nothing
  else is ever missing or damaged (`Circuits.ServedSmall`, `Circuits.TcpRecv.ProcessIncoming`).
* `create_break` never checks the first table entry in range. That entry comes out accurate whatever
  the table exactly when engLow falls on it or the accuracy is at least the way to the last entry an
  interval may reach (`BreakFirstEntries.FirstEntryAccurate`); `BreakTables.FirstEntryUnchecked` is
  a table where it does not.
* `create_break` repeats its first breakpoint until the array is full exactly when no table entry
  lies between the limits (`BreakTables.CreateBreak`, `BreakTables.StallExample`).
* A server response whose command does not match the kind of the request breaks the agreement of
  table and queues, or ends the request without a word; for each response the harmless cases are
  stated exactly. One harmful case needs no faulty server: the refusal of the update that is
  requested after an unresponsive circuit has come back (`ClientIOs.UpdateRefused`).
* A cancellation the circuit throws at leaves the subscription in its queue but not in the table, and
  that is the only way in which destroying a request or a channel fails
  (`ClientIOs.Cac.DestroyIO`, `ClientIOs.Cac.DestroyChannel`).
* A read that fails or is refused is never taken off the counter of `ca_pend_io`, and after 2 to
  the 32 sequences the numbers come round to channels that never connected, which takes the counter
  below zero (`OutstandingIOs.SequenceEnds`, `OutstandingIOs.NumbersGoRound`).
* While the inputs of access security are being connected, the clients of a group in which an input
  has changed wait with the rights they had; all others are right at any time
  (`AccessStates.Coherence`).
* The advance of a beacon sequence number is one too small when the numbers go round
  (`BeaconPeriods.AdvanceIsModular`).

An invariant can be sealed (`Sealing.dfy`): the verifier then carries it along by its name and looks
inside only where it is asked to.

## Model

| member | source | states |
|---|---|---|
| `Wire.OldHeaderRoundTrip` | base/src/ca/comQueRecv.cpp:231-268 | The sixteen header bytes as written are read back field by field, whatever follows them |
| `Wire.HeaderLayout` | base/src/ca/comQueSend.cpp:284-320 | Where each field stands: command, size, type, count, channel and available number at bytes 0, 2, 4, 6, 8 and 12, or 0xffff and 0 in the second and fourth place and two more words behind |
| `Wire.FirstByteFirst` | base/src/ca/comBuf.h:196-324 | Numbers stand with their first byte first |
| `Wire.HeaderRoundTrip` | base/src/ca/comQueSend.cpp:284-320 | A header written in the short or the extended form is read back as the same header: the escape value 0xffff with two more words never collides with a short header |
| `Wire.ParseHeaderExtends` | base/src/ca/tcpiiu.cpp:1146-1183 | A header that is complete stays the same header when more bytes arrive |
| `Wire.ParseMessage` | base/src/ca/tcpiiu.cpp:1185-1249 | A header and its body in front of a stream are decoded as one message, or skipped if the body is above the limit, and the rest is decoded as if it stood alone |
| `Wire.ParseAppend` | base/src/ca/tcpiiu.cpp:1135-1253 | Decoding a stream in two pieces gives the same messages as decoding it whole |
| `Wire.ParseFirst` | base/src/ca/tcpiiu.cpp:1135-1253 | A whole message at the front of a stream is decoded the same whatever follows it |
| `Requests.SizesFit` | base/src/ca/comQueSend.cpp:322-387 | For one element or more an accepted request never overflows 32 bits: not its size, not its alignment, and without version 4.9 not the 16-bit header fields |
| `Requests.VerdictLimits` | base/src/ca/comQueSend.cpp:327-372 | A request is accepted exactly when its type can be copied and its element count is within the protocol limit |
| `Requests.WhenAccepted` | base/src/ca/comQueSend.cpp:327-372 | Which types are accepted by number, that a single string is shorter than forty bytes, and that of any other count one more would still fit into the largest message; and the same for each reason to refuse |
| `Requests.BodyLength` | base/src/ca/comQueSend.cpp:342-387 | The body on the wire is as long as the header says exactly when there is an element: an empty array writes a header that promises more than follows |
| `Requests.FrameShape` | base/src/ca/comQueSend.cpp:322-387 | A frame is 16 or 24 header bytes and a body that is a multiple of eight with fewer than eight bytes of zeros at its end |
| `Outgoings.BodyAgrees` | base/src/ca/comQueSend.cpp:284-387 | The body of an accepted message of any kind is aligned and as long as its header says, exactly but for a write of nothing |
| `Outgoings.FramingRoundTrip` | base/src/ca/comQueSend.cpp:284-387 | The frames of any list of messages of all kinds, followed by anything, decode to exactly their headers and bodies, in order |
| `Senders.PreparedAgrees` | base/src/ca/tcpiiu.cpp:1255-1618 | Whatever a client asks for, what passes the checks and is accepted is a message whose body is as long as its header says; a write of nothing never gets that far |
| `Senders.RefusedOnlyCancel` | base/src/ca/tcpiiu.cpp:1601-1618 | Of all commands but writes, the queue refuses exactly the cancellations to a server before version 4.9 whose count is 0xffff modulo 2 to the 16 |
| `Senders.CancelAfterSubscribe` | base/src/ca/tcpiiu.cpp:1515-1618 | A subscription that could be asked for can be cancelled |
| `Senders.WhenSilent` | base/src/ca/tcpiiu.cpp:1255-1618 | Nothing is sent exactly to a server that is too old for names, on a circuit that is going down and, for the requests of known channels, on one that is not up |
| `Senders.WhenWrong` | base/src/ca/nciu.cpp:315-378 | A wrong count, a string without an end, a wrong type or a wrong event mask is rejected exactly then, before anything else is looked at |
| `Senders.WhenTooLarge` | base/src/ca/tcpiiu.cpp:1423-1434 | A read or a subscription is rejected exactly if its reply, fields and elements together, is larger than the client can take in |
| `Senders.WhenUnsupported` | base/src/ca/tcpiiu.cpp:1398-1492 | The rest that is rejected is exactly a confirmed write to a server before version 4.1 and a name that does not fit a short header |
| `Servers.WriteCarries` | base/src/rsrv/camessage.c:751-830 | The data of an accepted write hold its values: one string as text, anything else element by element, each number with its first byte first |
| `Servers.Understood` | base/src/rsrv/camessage.c:2241-2271 | For each of the fourteen requests: the server reads the right command out of the message, for the right channel, with the right identifier, type, count, mask, name and values |
| `Requests.EmptyArrayIsNoMessage` | base/src/ca/comQueSend.cpp:342-387 | The frame of an empty array would be no message: the decoder waits for bytes that were never sent; `Senders.PreparedAgrees` shows that no client gets one queued |
| `Requests.EmptyArrayIsAccepted` | base/src/ca/comQueSend.cpp:322-387 | The framing function itself accepts an empty array exactly of the types it can copy, so refusing it is up to its callers |
| `Arithmetic.FitFits` | base/src/ca/comBuf.cpp:48-164 | A vector push takes the largest number of elements that fit, rounded down to whole elements |
| `ComBufs.ComBuf.PushScalar` | base/src/ca/comBuf.h:196-324 | A scalar is written whole and big-endian behind the others, or not at all |
| `ComBufs.ComBuf.CopyInAll` | base/src/ca/comBuf.h:360-370 | All the bytes or none of them |
| `ComBufs.ComBuf.PushVector` | base/src/ca/comBuf.cpp:48-164 | The elements that fit are written in place behind the others, the committed bytes untouched |
| `ComBufs.ComBuf.CopyInBytes` | base/src/ca/comBuf.h:372-382 | As many bytes as there is room for |
| `ComBufs.ComBuf.CommitIncoming` | base/src/ca/comBuf.h:350-353 | What was written becomes committed |
| `ComBufs.ComBuf.ClearUncommittedIncoming` | base/src/ca/comBuf.h:355-358 | What was not committed is forgotten and nothing else |
| `ComBufs.ComBuf.CopyOutBytes` | base/src/ca/comBuf.h:396-406 | The first committed bytes, as many as asked for and there are, are taken in order |
| `ComBufs.ComBuf.Pop` | base/src/ca/comBuf.h:419-493 | A scalar is taken whole or nothing is, and the buffer says whether it has run empty |
| `ComBufs.ComBuf.FlushToWire` | base/src/ca/comBuf.cpp:31-46 | Whatever partial sends the wire makes, the bytes sent are the committed bytes from the front and the rest stays; a rest is left exactly if the wire refuses |
| `ComQueSends.ComQueSend.PushComBuf` | base/src/ca/comQueSend.h:205-211 | A full buffer joins the queue as part of the message being written |
| `ComQueSends.ComQueSend.PushScalar` | base/src/ca/comQueSend.h:140-150 | A scalar goes whole into the last buffer or into a new one: the pending bytes grow by exactly its bytes |
| `ComQueSends.ComQueSend.PushVector` | base/src/ca/comQueSend.h:117-134 | A vector is spread over as many buffers as it needs: the pending bytes grow by exactly its elements |
| `ComQueSends.ComQueSend.PushString` | base/src/ca/comQueSend.h:200-203 | The bytes of a string are spread over buffers in order |
| `ComQueSends.ComQueSend.InsertRequestHeader` | base/src/ca/comQueSend.cpp:284-320 | A header is appended in the right form, in one buffer, or refused without version 4.9 |
| `ComQueSends.ComQueSend.InsertRequestWithPayLoad` | base/src/ca/comQueSend.cpp:322-387 | An accepted request appends exactly its frame; a refused one reports why |
| `ComQueSends.ComQueSend.BeginMsg` | base/src/ca/comQueSend.h:180-183 | A message starts with nothing uncommitted |
| `ComQueSends.ComQueSend.CommitMsg` | base/src/ca/comQueSend.cpp:389-397 | The committed stream grows by exactly what was pushed since the message began, and the pending count by its size |
| `ComQueSends.ComQueSend.ClearUncommitedMsg` | base/src/ca/comQueSend.cpp:400-413 | A message rolled back leaves the committed stream and the buffers as they were, whatever had been pushed |
| `ComQueSends.ComQueSend.QueueRequest` | base/src/ca/tcpiiu.cpp:1387-1396 | A request is committed whole or leaves no trace, including a bad type found after its header |
| `ComQueSends.ComQueSend.EndMsg` | base/src/ca/comQueSend.h:165-178 | A message ends committed, or rolled back as if it had never begun |
| `ComQueSends.ComQueSend.QueueBare` | base/src/ca/tcpiiu.cpp:1415-1443 | A command without a body is committed whole or leaves no trace |
| `ComQueSends.ComQueSend.QueueNamed` | base/src/ca/tcpiiu.cpp:1445-1492 | A command with a name, filled up with zeros, is committed whole or leaves no trace |
| `ComQueSends.ComQueSend.QueueEventAdd` | base/src/ca/tcpiiu.cpp:1515-1564 | A subscription, its fields pushed one by one, is committed whole or leaves no trace |
| `ComQueSends.ComQueSend.QueueMessage` | base/src/ca/tcpiiu.cpp:1255-1618 | A message of any kind adds exactly its frame to the stream or leaves list, stream and pending count as they were; there is no memory for it only if what is queued and its frame are more than all the buffers would hold, each filled up but for 39 bytes |
| `ComQueSends.ComQueSend.PopNextComBufToSend` | base/src/ca/comQueSend.cpp:264-282 | The next buffer carries the front of the committed stream, no byte is lost or sent early, and the assertions on emptiness and size hold |
| `ComQueSends.ComQueSend.Clear` | base/src/ca/comQueSend.cpp:94-105 | The queue is empty and the pending count has come down to zero |
| `ComQueSends.CommittedStream` | base/src/ca/comQueSend.cpp:389-397 | Committing every buffer turns the pending bytes into stream bytes, in order |
| `ComQueSends.SettledStream` | base/src/ca/comQueSend.cpp:400-413 | Dropping what the message in progress wrote keeps every committed byte and leaves no empty buffer |
| `ComQueSends.DenseBytes` | base/src/ca/comQueSend.h:117-150 | A new buffer is taken only when the last one has less than forty bytes left, so the buffers in use hold at least their size less 39 each |
| `ComQueSends.CapacityIs` | base/src/ca/comQueSend.h:117-150 | How much any number of buffers is sure to hold |
| `ComQueRecvs.ComQueRecv.CopyOutBytes` | base/src/ca/comQueRecv.cpp:49-68 | Exactly the smaller of what is asked for and what is there is taken off the front, across buffers |
| `ComQueRecvs.ComQueRecv.RemoveBytes` | base/src/ca/comQueRecv.cpp:70-94 | The same number of bytes is dropped |
| `ComQueRecvs.ComQueRecv.PushLastComBufReceived` | base/src/ca/comQueRecv.cpp:103-123 | The content grows by the bytes received, whether they fill up the last buffer or start a new one |
| `ComQueRecvs.ComQueRecv.PopUInt8` | base/src/ca/comQueRecv.cpp:175-191 | One byte off the front, or none and no change |
| `ComQueRecvs.ComQueRecv.PopUInt16` | base/src/ca/comQueRecv.cpp:193-210 | Two bytes off the front as one number wherever the buffers divide, or none |
| `ComQueRecvs.ComQueRecv.MultiBufferPopUInt16` | base/src/ca/comQueRecv.cpp:128-144 | Two bytes that lie in two buffers |
| `ComQueRecvs.ComQueRecv.PopUInt32` | base/src/ca/comQueRecv.cpp:212-229 | Four bytes off the front as one number wherever the buffers divide, or none |
| `ComQueRecvs.ComQueRecv.MultiBufferPopUInt32` | base/src/ca/comQueRecv.cpp:146-166 | Four bytes that lie in several buffers |
| `ComQueRecvs.ComQueRecv.PopOldMsgHeader` | base/src/ca/comQueRecv.cpp:231-268 | A whole header or nothing, independent of where the buffers divide |
| `TcpSends.TcpSend.Send` | base/src/ca/tcpiiu.cpp:1255-1618 | What the checks made of a request goes to the queue, and everything sent, on its way and queued is still the frames of the messages accepted |
| `TcpSends.TcpSend.Others` | base/src/ca/tcpiiu.cpp:1628-1635 | While the lock is free any number of messages may be queued |
| `TcpSends.TcpSend.SendBuffer` | base/src/ca/tcpiiu.cpp:1630-1636 | However the socket splits a buffer, what it took comes next after what was sent, and what it refused is in front of the rest |
| `TcpSends.TcpSend.Flush` | base/src/ca/tcpiiu.cpp:1620-1662 | Buffers are taken and sent until the queue is empty or the socket refuses, while other threads queue between two buffers: what was sent is the frames of the messages accepted so far, whole and in order, or a front of them; it fails exactly if the socket refuses |
| `TcpSends.AcceptedBecame` | base/src/ca/tcpiiu.cpp:1255-1618 | The messages accepted are those of the requests accepted, one for each of them and in order |
| `Circuits.TcpRecv.FetchHeader` | base/src/ca/tcpiiu.cpp:1146-1183 | A header is taken over only when all its bytes are there |
| `Circuits.TcpRecv.CollectBody` | base/src/ca/tcpiiu.cpp:1193-1244 | A body is collected, or skipped if it is above the limit or there is no memory for it, over any number of calls |
| `Circuits.ServedSmall` | base/src/ca/tcpiiu.cpp:1193-1244 | Bodies that do not need the large cache are all delivered, and unchanged |
| `Circuits.LateMemory` | base/src/ca/tcpiiu.cpp:1196-1216 | How a body gets damaged: no memory when its first bytes arrive and memory when the rest does; it is right exactly if the new memory happens to hold the bytes thrown away |
| `Circuits.TcpRecv.ProcessIncoming` | base/src/ca/tcpiiu.cpp:1135-1253 | However the bytes were cut up on the way, the messages due so far are those the whole stream received so far decodes to, and a misaligned header is reported exactly when the stream holds one; all of them were delivered, in order, but for bodies there was no memory for; decoding stops with a front of them exactly when the client finds a response bad |
| `TcpSends.TcpSend.SendAll` | base/src/ca/tcpiiu.cpp:1620-1662 | Any requests of all kinds, some of them refused, flushed at any time with any partial sends and failures: what was sent, with what was lost at a failure, is the frames of the accepted ones; it fails exactly if the socket refuses, and memory has run out only where there was too much to hold |
| `Transfers.PartDue` | base/src/ca/tcpiiu.cpp:1135-1253 | While a stream arrives, the messages due are always a front of those of the whole stream |
| `Transfers.ReceiveAll` | base/src/ca/tcpiiu.cpp:1135-1253 | Any cutting of a byte sequence delivers what the sequence decodes to, or a front of it exactly if the client finds a response bad; everything is delivered if no body needs the large cache or there was memory each time |
| `Transfers.Transfer` | base/src/ca/tcpiiu.cpp:1135-1253 | End to end: of what one side is asked for, what it accepts and the wire carries the other side delivers and understands as it was meant, request by request and in order; everything arrives unless the socket refuses, the client finds a response bad or memory is short, and each of these only for its own reason |
| `Transfers.TransferMeaning` | base/src/ca/comQueSend.cpp:284-387 | If everything was sent, the accepted messages of all kinds arrive with their headers and bodies, in order, except bodies above the limit; if not, a front of them does |
| `Transfers.AllUnderstood` | base/src/rsrv/camessage.c:2241-2271 | The messages of accepted requests, as far as they are delivered, say what was meant; only those with a body above the limit are missing |
| `Transfers.PartUnderstood` | base/src/rsrv/camessage.c:2241-2271 | A front of the messages says what a front of the requests meant |
| `Transfers.MessagesUnderstood` | base/src/rsrv/camessage.c:2241-2271 | The same of everything that was accepted in a run |
| `AccessRules.CalcFrame` | base/src/as/asLibRoutines.c:1306-1332 | A calculation does not depend on inputs it does not use |
| `AccessRules.OneRight` | base/src/as/asLibRoutines.c:933-1002 | The highest access over matching rules with the trap mask of the first rule that reaches it is unique |
| `AccessRules.RightsAreRight` | base/src/as/asLibRoutines.c:951-997 | The in-order scan that looks only at rules which raise the access finds exactly that |
| `AccessRules.MatchesMeans` | base/src/as/asLibRoutines.c:955-994 | A rule gives a client nothing exactly if the client is above its level, on none of its user lists, on none of its host lists, or its calculation uses a bad input or has not come out true |
| `AccessRules.RightIsDeserved` | base/src/as/asLibRoutines.c:933-1002 | The right of a client said from there: no rule that gives it anything gives more, and the first that gives as much gives its trap mask |
| `AccessRules.WriteIsFinal` | base/src/as/asLibRoutines.c:953-954 | Stopping at write access loses nothing |
| `AccessRules.Scan` | base/src/as/asLibRoutines.c:933-1002 | The scan with its early exits finds the right the rules give, in both formulations |
| `AccessRules.Find` | base/src/as/asLibRoutines.c:956-986 | A name is found exactly when one of the groups holds it |
| `AccessRules.Recalculate` | base/src/as/asLibRoutines.c:904-920 | Recalculating only the rules whose inputs have changed gives every rule the value a calculation of all of them would; such a rule counts exactly if its calculation succeeds with a result between 0.99 and 1.01, and the others stay as they were |
| `AccessRules.FreshMeans` | base/src/as/asLibRoutines.c:904-920 | From scratch a calculation counts exactly if one of its inputs has reported and it comes out between 0.99 and 1.01 |
| `AccessRules.Reported` | base/src/as/asCa.c:145-160 | A report marks its input as changed and keeps every rule that does not use it up to date |
| `AccessStates.Coherence` | base/src/as/asLibRoutines.c:897-1002 | In every reachable state each client has exactly the access and trap mask that the rules of the group its member names, or of DEFAULT, give it when worked out from scratch, and a client with a callback was last told its access; only groups in which an input changed while inputs are being connected wait |
| `AccessStates.InputsHeeded` | base/src/as/asCa.c:90-161 | In every reachable state an input is bad exactly if the last thing heard of it was that it is to be connected, a lost connection, a report that could not be read or an invalid value; otherwise calculations use the value last heard |
| `AccessStates.OneGroupEach` | base/src/as/asLibRoutines.c:148-165 | Every member is in exactly one group list once, every client in exactly one member list once |
| `AccessStates.JoiningKeeps` | base/src/as/asLibRoutines.c:846-882 | Putting a member into a group and scoring its clients there keeps all of that |
| `AccessStates.Recomputed` | base/src/as/asLibRoutines.c:897-931 | A recalculation of a group, with or without an input change just before it, keeps all of that and ends the waiting of the group |
| `AccessStates.Swapped` | base/src/as/asLibRoutines.c:146-147 | A new configuration in place with no member moved yet satisfies it for the members moved so far |
| `AccessEngines.AccessEngine.ComputePvt` | base/src/as/asLibRoutines.c:933-1002 | The client gets the right its rules give; its callback is called exactly when the access changed |
| `AccessEngines.AccessEngine.ComputeAsgPvt` | base/src/as/asLibRoutines.c:897-931 | The group is recalculated, nothing is left pending, and exactly its clients are scored |
| `AccessEngines.AccessEngine.FindGroup` | base/src/as/asLibRoutines.c:859-873 | The group of that name, else DEFAULT; the logic error cannot happen |
| `AccessEngines.AccessEngine.AddMemberPvt` | base/src/as/asLibRoutines.c:846-882 | The member joins the end of that list and exactly its clients are scored |
| `AccessEngines.AccessEngine.AddMember` | base/src/as/asLibRoutines.c:260-269 | A new member joins its group and nothing else changes |
| `AccessEngines.AccessEngine.RemoveMember` | base/src/as/asLibRoutines.c:271-291 | A member without clients goes; one with clients is refused |
| `AccessEngines.AccessEngine.ChangeGroup` | base/src/as/asLibRoutines.c:293-312 | The member moves with its clients, which are scored in the new group |
| `AccessEngines.AccessEngine.AddClient` | base/src/as/asLibRoutines.c:333-358 | A new client with a lower-case host gets its right at once |
| `AccessEngines.AccessEngine.ChangeClient` | base/src/as/asLibRoutines.c:360-375 | New level, user and host take effect at once; the host is not put into lower case here |
| `AccessEngines.AccessEngine.RemoveClient` | base/src/as/asLibRoutines.c:377-396 | The client leaves its list and nothing else changes |
| `AccessEngines.AccessEngine.RegisterClientCallback` | base/src/as/asLibRoutines.c:398-410 | The callback is told the present access at once |
| `AccessEngines.AccessEngine.ConnectCallback` | base/src/as/asCa.c:90-105 | The lost input becomes bad; its value, all other inputs and the other groups stay, clients keep everything but their rights, and the group is recalculated unless the input was bad already |
| `AccessEngines.AccessEngine.EventCallback` | base/src/as/asCa.c:107-161 | A valid value makes its input good and replaces the value; an invalid or unreadable one makes it bad and leaves the value; all other inputs and the other groups stay, clients keep everything but their rights, and the group is recalculated unless inputs are being connected |
| `AccessEngines.AccessEngine.ComputeAllAsg` | base/src/as/asLibRoutines.c:431-440 | Every group is recalculated |
| `AccessEngines.AccessEngine.StartInputs` | base/src/as/asCa.c:176-177 | Recalculation is put off |
| `AccessEngines.AccessEngine.AddInput` | base/src/as/asCa.c:178-201 | An input is bad until it reports |
| `AccessEngines.AccessEngine.InputsStarted` | base/src/as/asCa.c:202-204 | Once every input has been asked for, all caches are made coherent |
| `AccessEngines.HashNames` | base/src/as/asLibRoutines.c:118-145 | The hash table holds exactly the pairs of a name and a group that lists it |
| `AccessEngines.AccessEngine.MoveMembers` | base/src/as/asLibRoutines.c:153-163 | Every member of an old list is moved, with its client list, to the group it names in the new configuration |
| `AccessEngines.AccessEngine.Initialize` | base/src/as/asLibRoutines.c:86-169 | A bad configuration changes nothing; a good one takes effect with every member and client carried over and every right worked out anew |
| `AccessConfigs.SortedInsert` | base/src/as/asLibRoutines.c:1188-1215 | Inserting before the first greater name keeps the list sorted and proves the name was not there |
| `AccessConfigs.ConfigBuilder.AsgAdd` | base/src/as/asLibRoutines.c:1180-1217 | Groups are kept in strict order; a second group of a name is refused, except DEFAULT while it is empty |
| `AccessConfigs.ConfigBuilder.AsgRuleCalc` | base/src/as/asLibRoutines.c:1306-1332 | A rule uses at least the inputs its calculation names; a bad text leaves it without a calculation and is an error |
| `AccessConfigs.ConfigBuilder.UagAdd` | base/src/as/asLibRoutines.c:1088-1118 | User groups are kept in strict order; a name is refused exactly if it is there |
| `AccessConfigs.ConfigBuilder.HagAdd` | base/src/as/asLibRoutines.c:1132-1162 | Host groups are kept in strict order; a name is refused exactly if it is there |
| `AccessConfigs.ConfigBuilder.HagAddHost` | base/src/as/asLibRoutines.c:1164-1178 | Every host on a list is in lower case |
| `AccessConfigs.ConfigBuilder.AsgAddRuleOptions` | base/src/as/asLibRoutines.c:1248-1256 | A rule gets its trap mask and nothing else changes |
| `AccessConfigs.ConfigBuilder.AsgRuleUagAdd` | base/src/as/asLibRoutines.c:1258-1280 | A rule names a user group exactly if there is one of that name, so every group a rule names is known |
| `AccessConfigs.ConfigBuilder.AsgRuleHagAdd` | base/src/as/asLibRoutines.c:1282-1304 | A rule names a host group exactly if there is one of that name, so every group a rule names is known |
| `AccessConfigs.OneList` | base/src/as/asLibRoutines.c:118-145 | In what the builder builds the name of a group means one list, and exactly the names on it belong to the group |
| `AccessConfigs.BuiltIsOk` | base/src/as/asLibRoutines.c:98-112 | What the parser calls build, rules with trap masks, groups and calculations included, satisfies everything the engine relies on: distinct names, DEFAULT present |
| `BreakTables.MonotoneInjective` | base/src/bpt/makeBpt.c:275-286 | Interpolation in a strictly monotone table, extended past its end, never takes a value twice |
| `BreakTables.RawTableMeets` | base/src/bpt/makeBpt.c:260-292 | The converted table reads rawLow at engLow and rawHigh at engHigh exactly |
| `BreakTables.RawTableInjective` | base/src/bpt/makeBpt.c:287-292 | The conversion keeps all positions apart, so no slope divides by zero |
| `BreakTables.Convert` | base/src/bpt/makeBpt.c:275-292 | The table is converted in place |
| `BreakTables.InterpAtEntry` | base/src/bpt/makeBpt.c:277-280 | At an entry, the last one included, interpolation gives the entry |
| `BreakTables.InterpBetween` | base/src/bpt/makeBpt.c:275-286 | Between two entries interpolation is their mean, weighted with the distances |
| `BreakTables.LimitPositions` | base/src/bpt/makeBpt.c:275-286 | The positions of the limits are where the engineering values of the entries reach them |
| `BreakTables.WhatFits` | base/src/bpt/makeBpt.c:359-377 | An interval of one entry always fits a positive accuracy, and nothing fits any other |
| `BreakTables.FitsMeans` | base/src/bpt/makeBpt.c:359-377 | A line fits exactly if every entry after the first lies less than the accuracy above and less than the accuracy below it |
| `BreakTables.CheckInterval` | base/src/bpt/makeBpt.c:359-377 | The check succeeds exactly when the line is off by less than the accuracy, above and below, at every entry after the first |
| `BreakTables.NextTrial` | base/src/bpt/makeBpt.c:344-356 | The end of a trial is clamped to the table and to one entry past engHigh, and clamping ends the expansion |
| `BreakTables.FindInterval` | base/src/bpt/makeBpt.c:332-385 | The expand-then-shrink search ends, within bounds, with an interval that fits and that one more entry would break or a clamp forbids; without a positive accuracy it ends with nothing |
| `BreakTables.NextBreak` | base/src/bpt/makeBpt.c:332-402 | One interval more, or the accuracy error, or the table-too-large error, each exactly when it should |
| `BreakTables.FindBreaks` | base/src/bpt/makeBpt.c:317-406 | The breakpoints written are the chain of those intervals |
| `BreakTables.CreateBreak` | base/src/bpt/makeBpt.c:209-407 | Bad parameters change nothing; the accuracy error comes exactly when the accuracy is not positive and two table entries or more lie between the limits; otherwise the breakpoints are the chain, or the array is full; with a positive accuracy and room for every entry it finishes exactly when an entry lies between the limits |
| `BreakTables.ChainAdvances` | base/src/bpt/makeBpt.c:386-403 | Every interval advances by an entry at least |
| `BreakTables.ChainCovers` | base/src/bpt/makeBpt.c:331-403 | At every table entry after the first in a chain the line of its interval is off by less than the accuracy, above and below |
| `BreakTables.EntriesInRange` | base/src/bpt/makeBpt.c:318-330 | The entries a run works with are those whose values lie between the limits, and an interval may reach one entry further if there is one |
| `BreakTables.FinishedIsAccurate` | base/src/bpt/makeBpt.c:331-403 | In a finished table the line is off by less than the accuracy, above and below, at every entry whose value and that of the entry before lie between engLow and engHigh |
| `BreakFirstEntries.FirstMissBelow` | base/src/bpt/makeBpt.c:317-385 | The first entry in range, which nothing checks, is off by less than the way from it to the end of the first interval, for increasing and for decreasing tables |
| `BreakFirstEntries.KinkRunMisses` | base/src/bpt/makeBpt.c:317-385 | On a table with a kink made for the parameters every run, whatever its intervals, misses the accuracy at the first entry |
| `BreakFirstEntries.FirstEntryAccurate` | base/src/bpt/makeBpt.c:317-385 | The first entry is within the accuracy whatever the table exactly when engLow falls on it or the accuracy is at least the way from it to the last entry an interval may reach |
| `BreakTables.FirstEntryUnchecked` | base/src/bpt/makeBpt.c:323-377 | A table where the first entry is off by more than twice the accuracy |
| `BreakTables.StallExample` | base/src/bpt/makeBpt.c:331-405 | A table without an entry between the limits, where copies of the first breakpoint use up any room |
| `BreakTables.Outcomes` | base/src/bpt/makeBpt.c:322-405 | With a positive accuracy and an entry between the limits one breakpoint an entry is room enough; with no entry between the limits the first breakpoint is repeated until the room is used up; without a positive accuracy only one entry between the limits finishes, inaccurately |
| `ClientIOs.ExactlyOnce` | base/src/ca/cac.cpp:578-598 | In every reachable state a request is in the table exactly when it is in exactly one queue and has not ended; every request that is gone ended exactly once, with a completion exactly if a response with status ECA_NORMAL named it, else with a failure or, for a subscription, its end |
| `ClientIOs.WriteResponse` | base/src/ca/cac.cpp:754-770 | A write-notify response keeps that exactly when it names no request, a write, or ends one with an error |
| `ClientIOs.ReadResponse` | base/src/ca/cac.cpp:772-829 | A read-notify response keeps that exactly when it names a read, fails a write, or leaves a subscription its channel |
| `ClientIOs.EventResponse` | base/src/ca/cac.cpp:831-889 | A response that does not take the request off the table keeps that exactly when it names a subscription that stays |
| `ClientIOs.ExceptionResponse` | base/src/ca/cac.cpp:688-697 | An exception that takes the request off the table keeps that exactly when it does not name a subscription that stays |
| `ClientIOs.UpdateRefused` | base/src/ca/cac.cpp:972-979 | A refused subscription update leaves the subscription in its queue but not in the table, so destroying its channel fails its assertion |
| `ClientIOs.DisconnectedTwice` | base/src/ca/cac.cpp:578-598 | A second disconnection changes nothing: no request, no queue and not the table |
| `ClientIOs.Cac.WriteNotifyRespAction` | base/src/ca/cac.cpp:754-770 | The response takes the request off the table; the user is told of completion exactly if the status is ECA_NORMAL, else of failure with that status |
| `ClientIOs.Cac.ReadNotifyRespAction` | base/src/ca/cac.cpp:772-829 | A read ends with completion exactly if the status is ECA_NORMAL, else with failure and that status; a subscription gets the value or the status and goes back into the table under its identifier |
| `ClientIOs.Cac.EventRespAction` | base/src/ca/cac.cpp:831-889 | An update without a body does nothing; any other gives the user of a subscription of a connected channel the value exactly if the status is ECA_NORMAL, else the status |
| `ClientIOs.Cac.ReadRespAction` | base/src/ca/cac.cpp:891-907 | The old read response |
| `ClientIOs.Cac.EventAddExcep` | base/src/ca/cac.cpp:939-947 | The subscription is told of the refusal and stays |
| `ClientIOs.Cac.IoExceptionNotifyAndUninstall` | base/src/ca/cac.cpp:688-697 | The request is taken off the table and told the status of the exception |
| `ClientIOs.Cac.AssignId` | base/src/libCom/cxxTemplates/resourceLib.h:962-971 | The first identifier from the last one on, going round after 2 to the 32, that is not in the table; the search ends unless the table is full |
| `ClientIOs.Cac.IssueRequest` | base/src/ca/autoPtrRecycle.h:56-64 | A request the circuit throws at leaves table and requests unchanged |
| `ClientIOs.Cac.Read` | base/src/ca/nciu.cpp:279-313 | The checks in order, then exactly one request in table and queue |
| `ClientIOs.Cac.WriteNotify` | base/src/ca/nciu.cpp:352-378 | The checks in order, then exactly one request in table and queue |
| `ClientIOs.Cac.Subscribe` | base/src/ca/nciu.cpp:380-392 | A subscription is asked for at once exactly when the channel is installed |
| `ClientIOs.AskedKeeps` | base/src/ca/netSubscription.cpp:146-154 | Asking for a subscription that has not been asked for keeps the agreement of table, queues and what the server was asked |
| `ClientIOs.Cac.DestroyIO` | base/src/ca/cac.cpp:645-665 | A cancelled request ends once, a one-shot request with failure ECA_CHANDESTROY and a subscription with its end, and the server is told to cancel exactly what it was asked for; the invariant survives exactly if the circuit does not throw at that, and if it does the subscription is off the table and in its queue |
| `ClientIOs.Cac.DestroyChannel` | base/src/ca/nciu.cpp:78-100 | Every request of the channel is found in the table and ends, in queue order, the loop ends, and requests of other channels are untouched; it fails exactly if the circuit throws at the cancellation of one of its subscriptions |
| `ClientIOs.Cac.DisconnectAllIO` | base/src/ca/cac.cpp:578-598 | The one-shot requests of the channel end with failure ECA_DISCONN, in queue order, its subscriptions stay in order, are told and count as not asked for, other channels are untouched |
| `ClientIOs.Cac.Resubscribe` | base/src/ca/nciu.cpp:525-547 | Every subscription of the channel is asked for again, in queue order, but for those the circuit throws at |
| `OutstandingIOs.NoUnderflow` | base/src/ca/ca_client_context.cpp:463-474 | Whatever is waited for is counted, so the underflow assertion holds |
| `OutstandingIOs.EndKeeps` | base/src/ca/getCopy.cpp:59-86 | A read of the current sequence that ends with a value is taken off the counter, one that fails stays on it, and the accounting survives both |
| `OutstandingIOs.AfterKeeps` | base/src/ca/ca_client_context.cpp:453-474 | Whatever happens, channels created, cleared, connected and disconnected, reads issued, refused, answered and failed, the counter goes on counting what is waited for and the reads that failed |
| `OutstandingIOs.SequenceEnds` | base/src/ca/ca_client_context.cpp:518-519 | Starting a new sequence at zero is right exactly when nothing alive carries the new number from the last time round |
| `OutstandingIOs.NothingCounted` | base/src/ca/ca_client_context.cpp:498-502 | A counter of zero means that every read of the sequence delivered its value and every channel without a callback is connected |
| `OutstandingIOs.NumbersGoRound` | base/src/ca/ca_client_context.cpp:518-519 | A run that gets there: one channel is created and never connects, 2 to the 32 time-outs later it carries the new number uncounted, and when it connects the counter is -1 |
| `OutstandingIOs.ClientContext.CreateChannel` | base/src/ca/oldChannelNotify.cpp:46-61 | A channel without a callback is waited for |
| `OutstandingIOs.ClientContext.ClearChannel` | base/src/ca/oldChannelNotify.cpp:67-79 | The reads of the channel fail and it is waited for no longer |
| `OutstandingIOs.ClientContext.ConnectNotify` | base/src/ca/oldChannelNotify.cpp:81-99 | A connected channel is waited for no longer |
| `OutstandingIOs.ClientContext.DisconnectNotify` | base/src/ca/oldChannelNotify.cpp:101-119 | The channel counts as disconnected; if it has no callback and is of the current sequence it is waited for again |
| `OutstandingIOs.ClientContext.ChangeConnectionEvent` | base/src/ca/oldChannelNotify.cpp:231-248 | Giving or taking the callback of a disconnected channel moves it off or on the counter |
| `OutstandingIOs.ClientContext.ArrayGet` | base/src/ca/oldChannelNotify.cpp:280-304 | A read counts; one the channel refuses counts for ever |
| `OutstandingIOs.ClientContext.GetCompletion` | base/src/ca/getCopy.cpp:59-74 | A value that arrives takes its read off the counter if it is of the current sequence |
| `OutstandingIOs.ClientContext.GetException` | base/src/ca/getCopy.cpp:76-86 | A failed read is not taken off |
| `OutstandingIOs.ClientContext.PendIO` | base/src/ca/ca_client_context.cpp:482-522 | Over any events while it waits, reads issued and channels created and cleared included: it goes on exactly as long as the counter is above zero and time is left, so that a time-out comes only after the time is used up; the state at the end is what the events handled make of the state at the start; completion is normal exactly when the counter has reached zero in time, and then every read of the sequence delivered its value and every channel without a callback is connected; the accounting survives exactly when the next number is free |
| `TrapWrites.Pairing` | base/src/as/asTrapWrite.c:114-167 | In any run a call after a write has exactly one call to the same listener for the same message before it, carries the value left there, is the only one, and does not come after the listener was unregistered |
| `TrapWrites.NoStaleNode` | base/src/as/asTrapWrite.c:87-112 | Every pending call is to a registered listener |
| `TrapWrites.AsTrapWrite.RegisterListener` | base/src/as/asTrapWrite.c:74-85 | A listener joins the end of the list |
| `TrapWrites.AsTrapWrite.UnregisterListener` | base/src/as/asTrapWrite.c:87-112 | The listener and its pending calls are gone from every message, the other listeners and calls stay in order |
| `TrapWrites.AsTrapWrite.BeforeWrite` | base/src/as/asTrapWrite.c:114-144 | Every listener is called in registration order and what it leaves is kept; without listeners there is no message |
| `TrapWrites.AsTrapWrite.AfterWrite` | base/src/as/asTrapWrite.c:146-167 | The pending listeners of the message are called in order, each with what it left, and the message is gone |
| `BeaconPeriods.AdvanceIsModular` | base/src/ca/bhe.cpp:160-168 | The advance is the difference modulo 2 to the 32 exactly while the numbers do not go round, and one less when they do |
| `BeaconPeriods.DiscardedMeans` | base/src/ca/bhe.cpp:170-184 | The advances that count are one, and four and more but for the last 256 |
| `BeaconPeriods.Steady` | base/src/ca/bhe.cpp:227-270 | A period within bounds less than a quarter apart is no anomaly and keeps the average within them |
| `BeaconPeriods.QuarterIsExact` | base/src/ca/bhe.cpp:227-266 | A quarter is exactly the spread up to which no period can be late, and a fifth less exactly the one up to which none can be early |
| `BeaconPeriods.Bhe.Watch` | base/src/ca/bhe.cpp:126-276 | Over any run with periods in such bounds, with or without sequence numbers, from an estimator a circuit or the first beacon created (base/src/ca/cac.cpp:388-424): the average stays in the bounds, no anomaly and no change of the network is reported after the second beacon, and the second beacon is taken for a new server exactly when its period is not longer than the program had been running |
| `VaxFloats.Htond` | base/src/ca/convert.cpp:1376-1425 | The shifts and masks put sign, exponent and the fraction without its three low bits on the wire; the number on the wire is that of the host without them, and a zero exponent gives zero |
| `VaxFloats.Ntohd` | base/src/ca/convert.cpp:1434-1496 | The shifts and masks rebuild the number exactly, in range; above it the result is the largest number with the same sign, below it zero |
| `VaxFloats.DoubleValue` | base/src/ca/convert.cpp:1409-1415 | The number denoted on the wire is that of the host with the three low bits cleared |
| `VaxFloats.HostValue` | base/src/ca/convert.cpp:1487-1494 | From the wire to the host the number denoted is kept exactly, in range |
| `VaxFloats.NetHostNet` | base/src/ca/convert.cpp:1376-1496 | Wire to host to wire is the identity exactly on the numbers in range and zero |
| `VaxFloats.HostNetHost` | base/src/ca/convert.cpp:1376-1496 | Host to wire to host clears the three low bits, or gives zero if the exponent is zero |
| `VaxFloats.Htonf` | base/src/ca/convert.cpp:1538-1565 | Single precision to the wire keeps the number denoted, for exponents in range |
| `VaxFloats.Ntohf` | base/src/ca/convert.cpp:1575-1610 | Single precision to the host keeps the number denoted, for exponents in range |
| `VaxFloats.SingleValue` | base/src/ca/convert.cpp:1538-1610 | Single precision keeps the number denoted, in range, both ways |
| `VaxFloats.SingleRoundTrip` | base/src/ca/convert.cpp:1538-1610 | Both round trips are the identity exactly on the numbers in range and zero |

## Left out

- Sockets, threads, mutexes, guards, timers and environment variables: each locked section is one step; that every path releases its lock is not claimed, and `asRemoveMember` returns with it held when clients exist (base/src/as/asLibRoutines.c:279).
- Buffers in the send and receive queues are values: sharing of a buffer between a queue and its user is not captured; the array inside a buffer is proved separately.
- `comBuf::push(comBuf &)`, `removeBytes` and `fillFromWire` of a single buffer: the receive queue models their effect.
- The pending byte count of the send queue and the outstanding counter are unbounded numbers; their 32-bit limits are not modelled.
- The images of floating point elements on the wire are given bytes in the send queue; `popString` and the floating point pops of the receive queue are covered by the byte and integer pops.
- `ComQueRecvs.ComQueRecv.CopyOutBytes`: returns the bytes instead of writing them to the memory of the caller.
- What the client makes of a response: it is recorded as delivered, and whether it is found good is given.
- What a server does with a message: `Server.dfy` is only how it reads the message, without its checks of channels and rights.
- Memory for sending is a number of buffers, as if nothing else in the process used any; `TcpSends.TooMuch` allows a message to be refused from the buffers on that are all in use.
- `Circuits.TcpRecv.ProcessIncoming`: a body there was no memory for in time may be delivered with other bytes in place of the ones thrown away, as in the original; of such a body only header and length are promised.
- The parser, the macro expansion and the lexer of access security files; a configuration comes as what they build. User and host groups are lists of names; the `postfix` and `calcPerform` library is a small expression type whose division can fail.
- `AccessEngines.AccessEngine.AddMember`: adds a new member; handing in a member that is in a list already would link it twice, which the original does not prevent.
- Host names after `asChangeClient` are compared as given, since only `asAddClient` puts them into lower case.
- Notification order among clients, the order of members in a group after a change of configuration, and user data pointers of access security.
- `BreakTables.CreateBreak`: requires a strictly monotone table and different raw limits when the other parameters make sense, because over the real numbers the slopes divide by their differences; rounding of doubles is not modelled.
- User callbacks that call back into the library from a completion.
- `BeaconPeriods.Bhe.Watch`: the run does not go round the end of the sequence numbers, where the advance is one too small and a beacon is discarded.
- Synchronous groups, search timers, `tcpiiu` beyond its stream handling, and `udpiiu`.
- A read whose reply has another type than was asked for: the original destroys the object twice (base/src/ca/getCopy.cpp:68-73).
- `VaxFloats.Htond`: the exchange of the two words and of their bytes is not modelled, only the fields.
- The repeater client list, the out-of-place structure conversions, dump and print routines, test programs and the example application: they would only add easy members.
