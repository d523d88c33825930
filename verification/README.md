# A verified model of the multi-shard message server

The repository is a TCP message server whose clients are spread over shards, one poll thread a shard, and the
client library that talks to it. This project models the parts of it that carry state from one call to the next,
and proves what they are for:

- **The wire** (`Packet.dfy`, `Tcp.dfy`, `Reader.dfy`, `Calls.dfy`, `ClientInfos.dfy`). Packets are marshalled as a
  two-byte size, a four-byte command and data. The server decodes them with a reader that takes whatever has arrived,
  decodes frame after frame in place through a moving offset, slides the tail to the start and completes it. What a
  call of that reader, and of the single-shot one beside it, comes to is a function of the stream and the `recv`
  outcomes (`Calls.FastCall`, `Calls.SingleCall`), which knows no buffer and leaves decoding to a pure frame parser;
  the loops are proved equal to it, down to `recvFixedBytes`, its failure counters and `Buffer::MoveToStart`, and
  whatever is said of calls is proved of the function.
- **Polling** (`Poll.dfy`, `ClientInfos.dfy`). A whole poll is a fold over the events that `epoll` reports, of what
  is known of the clients, what they have sent, and when the clock was read; the loop over the table is proved equal
  to it.
- **The limiter** (`Queue.dfy`, `Deadline.dfy`, `ClientProtocol.dfy`). One comparison with the oldest sample of a
  circular queue decides whether too many events are recent; the client library's reads and writes keep their rate.
- **The recency index** (`OrderedHashSet.dfy`, `MostRecentTimestamps.dfy`). A linked list and a map of iterators,
  under a scan that stops at the first recent entry.
- **The balancer** (`Priority.dfy`), one load a shard and the indices of a least and a greatest one.
- **The shards** (`Client.dfy`, `ClientInfos.dfy`, `ServerProtocol.dfy`, `Server.dfy`): tables of clients, the
  operations on them, and the accept, close and migration loops of the server program over all shards.
- **The server as a system of steps** (`ServerSteps.dfy`). Every section under a lock is one step; additions,
  closes, migrations, polls and health checks interleave freely. Over all runs: who owns a socket (`Ownership.dfy`),
  what the loads have to do with the clients (`Accounting.dfy`, and over operations that are not split
  `Phantom.dfy`), how far apart loads get (`Balance.dfy`), and whom a health check may strike down (`TwoStrike.dfy`).
  `Refinement.dfy` proves that every call of a shard is a run of these steps, names them, and says that the other
  shards are left alone; so the loops of `Server.dfy`, which call one shard after the other, are runs of the whole
  server.
- **The pipeline** (`Pipeline.dfy`): what becomes of a request between being parsed and being answered.
- **The handshake** (`Handshake.dfy`): the client's `SetupConnection` against the server's packet handling, over
  FIFO channels, with HeartBeats of the health check in between.

`MapSums.dfy` and `Iteration.dfy` hold what is needed about finite maps and about going through unordered sets.

The operating system is an oracle throughout: `recv` follows a script of outcomes (bytes delivered, `EAGAIN`,
recoverable, fatal and unclassified errors, end of file), `send` is accepted, refused or finds its socket closed,
`epoll` reports any events, and the clock is any nondecreasing sequence of readings. Whatever an unordered container
has first or next is any of its elements. The model follows the build of the sample server, with the optimised
reader and with migration between threads (`sample/poll/server/CMakeLists.txt:44-45`), but not its flags for profiling
and for the network mock (`sample/poll/server/CMakeLists.txt:40-41`): a client weighs 25 by default, and so does a
made-up one, where the profiling build has 10000 (`deadliner/include/pc/deadliner/Deadline.hpp:19-26`).

## What does not hold, and when it does

Where the code does less than its comments or its evident intent, the code is what is modelled; the intended form is
modelled beside it where other parts rest on it.

- `OrderedHashSet::insert` never stores a new key in its map, so the index only ever grows and `remove` does nothing
  (`OrderedHashSets.LiteralIff`). The classes carry a constant that says whether the missing store is supplied; the
  order and scan results for the index as intended are about it, and `LiteralScanFindsEverOld` says what the scan
  selects without it: sockets that were active this second, and sockets that are gone.
- Growing a wrapped `queue` drops the newest value and leaves `rear` on a blank; growth keeps the contents exactly
  when nothing was wrapped or nothing grew (`Queues.Queue.MaxCount`). `Queues.Queue.Grow` is growth as intended.
- A call of the fast reader succeeds exactly if what it draws ends on a frame boundary, or more than one byte into a
  fitting frame that the next receives complete (`Calls.FastCallReadsIff`). So healthy connections, on which whole
  fitting frames come in, get lost: a first receive of a single byte wraps an unsigned counter around
  (`Calls.OneByteBreaks`); a lone header byte that is the last byte of the buffer leaves no room to receive more
  (`Calls.LastByteTerminates`); after a lone header byte anywhere, one EAGAIN closes the connection
  (`Calls.AgainTerminates`), while a receive that completes a frame puts up with 24 of them
  (`Calls.CompletionHasPatience`), and any receive of the drawing loop with any number of recoverable errors
  (`Calls.RecoverableIsInvisible`); and a completing receive that brings something before the peer hangs up counts as a
  success and breaks the reader (`Calls.ShortCompletionBreaks`). While every receive brings something, the first two
  are all that can happen (`Calls.HealthyCallReadsIff`).
- A frame that announces an empty payload looks like a failed receive to the single-shot reader
  (`Calls.EmptyPayloadTerminates`), and one as large as the buffer is received and then refused.
- When the reader breaks in the middle of a poll, the packets read so far are lost and no activity is noted
  (`ServerProtocol.ServerLearnProtocol.PollRead`, `Pipelines.PollCallRuns`).
- A stale event closes a socket in its old shard exactly if the client has come back there and not left again by the
  time of the close (`Ownership.StaleEventClosesIff`); a run where it does is `Ownership.StaleEventClosesReturned`.
- Loads drift from the weights for one reason more than the two one would look for: besides a dropped decrement and a
  phantom's weight, an insertion that finds its key present is charged for all the same
  (`Accounting.ServerStaysBalancedIff`). A close between an insertion and its increment is enough
  (`Accounting.ClosedTooSoon`). If no operation is split, the only thing left is that a made-up client is added where
  another one is (`Phantoms.WholeOperationsStayExactIff`); asking an empty shard for a client twice does that
  (`Phantoms.PhantomsDoMeet`), and from then on taking made-up clients does change loads
  (`Phantoms.PhantomSubtractsIff`).
- A health check shuts a socket down without any warning exactly if the shard that it selected it in has lost it since
  or never had it (`TwoStrike.PassedOnIff`); that hits clients that have just migrated
  (`TwoStrike.MovedClientIsShut`).
- A migration can make the balance worse: the gap between loads stays within twice the greatest client weight, and
  reaches more than that weight (`Balance.SpreadIsReached`).
- Requests and answers get lost in four places: in a poll whose reader breaks after a Send was read, at `Execute` when
  no client is left, at `Write` when a socket turns out to be closed, which takes the answers for other clients along,
  and at `Write` when a send fails with an error that `HandleError` does not know (`Pipelines.NothingIsLostIff`,
  `Pipelines.ClosedSocketLosesOthers`).
- A HeartBeat that the health check queues before Join makes a faultless set-up fail
  (`Handshakes.HandshakeOutcome`, `Handshakes.EarlyHeartBeatBreaks`).
- The size field travels in an order that depends on the sender's byte order: high byte first (RFC 791, Appendix B)
  only on little-endian hosts, and hosts that differ understand each other for palindromic sizes only
  (`Packets.HighByteFirst`, `Packets.SameOrderIff`).

## Model

| member | source | states |
|---|---|---|
| Packets.ConversionsInvert | protocol/include/pc/protocol/Packet.hpp:24-39 | host-to-network and network-to-host conversion undo each other on every value of the field's width, on either host |
| Packets.Marshall | protocol/include/pc/protocol/Packet.hpp:194-212 | the byte loop produces the wire form: the size in network order as the host stores it in the first two bytes, then the command, then the data |
| Packets.ExtractPacketSize | protocol/include/pc/protocol/Packet.hpp:110-125 | the shifting loop reads the two bytes at the offset as a signed 16-bit size |
| Packets.ExtractData | protocol/include/pc/protocol/Packet.hpp:126-144 | the first four bytes of the payload are the command, the others the data |
| Packets.HeaderIffWireSize | protocol/include/pc/protocol/Packet.hpp:110-125 | a header reads as a size exactly when it is the one that is sent for that size |
| Packets.RoundTripIff | protocol/include/pc/protocol/Packet.hpp:194-212 | a packet survives marshalling and parsing exactly when its command has four bytes and its payload at most 32767 |
| Packets.FramesOfStream | protocol/include/pc/protocol/Packet.hpp:146-188 | parsing the bytes of any list of well-formed packets gives back the list, whatever follows |
| Packets.StreamOfFrames | protocol/include/pc/protocol/Packet.hpp:194-212 | marshalling what was parsed, plus the unparsed rest, gives back the bytes, for every byte string |
| Packets.PrefixFree | protocol/include/pc/protocol/Packet.hpp:194-212 | no frame is a proper prefix of another |
| Packets.HighByteFirst | protocol/include/pc/protocol/Packet.hpp:24-39 | the first byte is the high one on little-endian hosts and the low one on big-endian hosts |
| Packets.SameOrderIff | protocol/include/pc/protocol/Packet.hpp:24-39 | a receiver reads the sender's size right exactly when both order bytes alike or the two bytes are equal |
| Buffers.Buffer.Window | memory/include/pc/memory/Buffer.hpp:53-72 | the bytes that data(), begin() and operator[] reach from the offset |
| Buffers.Buffer.SetOffset | memory/include/pc/memory/Buffer.hpp:26-30 | the offset stays within the array |
| Buffers.Buffer.OffsetBy | memory/include/pc/memory/Buffer.hpp:31-34 | the offset advances within the array |
| Buffers.Buffer.OffsetBack | memory/include/pc/memory/Buffer.hpp:35-39 | the offset goes back by no more than it is |
| Buffers.Buffer.MoveToStart | memory/include/pc/memory/Buffer.hpp:75-79 | the overlapping copy puts the bytes from the offset on at the start and leaves the tail of the array as it was |
| Tcp.HandleError | network/include/pc/network/TCP.hpp:96-184 | which errors are retried and which close; every retried one moves 5 * majorFail + asyncFail on by one or by five |
| Tcp.RecvFixedBytes | network/include/pc/network/TCP.hpp:231-292 | for every stream and script of outcomes: how many bytes it reports, whether it reports the socket closed and what is left of the script are those of the recursion TakeFixed; exactly that prefix of the stream lands in the buffer and the rest is untouched |
| Tcp.FixedIsBounded | network/include/pc/network/TCP.hpp:231-292 | it goes through a prefix of the script with at most 25 failing receives and, of the others, one more than it takes bytes |
| Tcp.FixedStopsFor | network/include/pc/network/TCP.hpp:231-292 | it stops short only at the end of the stream, on a fatal or unknown error, or when patience is worn out, and reports the socket closed exactly after a fatal error or worn-out patience |
| Tcp.RecvAsManyAsPossible | network/include/pc/network/TCP.hpp:185-229 | receives that fail in a recoverable way are repeated; the first one that does not decides: how many bytes land in the buffer, whether the socket is reported closed, and what is left of the script are those of that one receive |
| Tcp.SomeIsFirst | network/include/pc/network/TCP.hpp:185-229 | the same of the recursion that the calls of the readers are made of |
| Queues.PushedKeepsLast | queue/include/pc/queue.hpp:38-51 | displacing the oldest value keeps the window the last capacity values of the history |
| Queues.WindowIsLast | queue/include/pc/queue.hpp:38-51 | after n additions to an empty queue it holds exactly the last min(n, capacity) values, in order |
| Queues.Queue.constructor | queue/include/pc/queue.hpp:20 | a new queue is empty |
| Queues.Queue.IsFull | queue/include/pc/queue.hpp:22-26 | the index test tells exactly when the contents have reached capacity |
| Queues.Queue.First | queue/include/pc/queue.hpp:28-32 | the oldest value of the contents |
| Queues.Queue.Last | queue/include/pc/queue.hpp:33-37 | the newest value of the contents |
| Queues.Queue.Add | queue/include/pc/queue.hpp:38-51 | the contents become the old ones plus the value, minus the oldest one if full; every wrapped state is full |
| Queues.Queue.MaxCount | queue/include/pc/queue.hpp:53-80 | growth keeps the contents exactly when the window was not wrapped; a wrapped one loses its newest value and gains two blanks |
| Queues.Queue.Grow | queue/include/pc/queue.hpp:53-80 | growth as intended keeps contents and order in every reachable state |
| Deadlines.DifferenceInNanos | deadliner/include/pc/deadliner/Deadline.hpp:35-62 | subtracting seconds and nanoseconds separately gives the difference of the instants |
| Deadlines.CountBySample | deadliner/include/pc/deadliner/Deadline.hpp:102-114 | in a sorted history at least n events are recent exactly when the n-th last one is |
| Deadlines.Deadline.Breached | deadliner/include/pc/deadliner/Deadline.hpp:102-114 | the one comparison is true exactly when at least maxCount of all increments ever made are within maxTime |
| Deadlines.Deadline.HealthCheckNeeded | deadliner/include/pc/deadliner/Deadline.hpp:89-100 | true exactly when there was an increment and the last one is longer ago than allowed |
| Deadlines.Deadline.Increment | deadliner/include/pc/deadliner/Deadline.hpp:119-126 | the history grows by the clock reading and the queue goes on holding its last maxCount samples |
| Deadlines.WindowHoldsAtMost | deadliner/include/pc/deadliner/Deadline.hpp:102-114 | if no maxCount + 1 consecutive events lie within maxTime, no window of that length holds more than maxCount |
| ClientProtocol.BoundedAfterRecord | protocol/include/pc/protocol/ClientLearnProtocol.hpp:54-64 | recording an operation right after a check that let it through keeps the rate bound |
| ClientProtocol.ClientLearnProtocol.Write | protocol/include/pc/protocol/ClientLearnProtocol.hpp:54-64 | refuses exactly when the limiter is breached at the check, otherwise records and sends; the rate bound holds after it |
| ClientProtocol.ClientLearnProtocol.Take | protocol/include/pc/protocol/ClientLearnProtocol.hpp:39-47 | one packet is taken and recorded, or nothing happens because the limiter is breached |
| ClientProtocol.ClientLearnProtocol.Read | protocol/include/pc/protocol/ClientLearnProtocol.hpp:38-53 | every HeartBeat that is taken in is recorded and gets one Blank, unless the limiter is breached at that write or the link refuses it; a Blank is recorded too; nothing else is sent, and the first other packet is returned. With room for two recordings a HeartBeat and one more, and a link that lets everything pass, every HeartBeat in front is answered |
| ClientProtocol.ClientLearnProtocol.AnswerHeartBeat | protocol/include/pc/protocol/ClientLearnProtocol.hpp:46-50 | one Blank is written and recorded, unless the limiter is breached by what was recorded so far; it goes out exactly if the link lets it pass |
| ClientProtocol.AllAreAnswered | protocol/include/pc/protocol/ClientLearnProtocol.hpp:38-53 | with that room no answer is refused: one Blank a HeartBeat, and two recordings |
| ClientProtocol.ClientLearnProtocol.SetupConnection | protocol/include/pc/protocol/ClientLearnProtocol.hpp:66-92 | what it sends, what it leaves unread and whether it succeeds, from what the limiter and the link let pass and what comes in; with nothing against it, it succeeds exactly when Syn and Join are the first two packets in |
| OrderedHashSets.IntendedOrder | orderedhashset/include/pc/OrderedHashSet.hpp:56-78 | after any operations keys are distinct, in the order of their last insertion, and present exactly when their last operation is an insertion, with its value |
| OrderedHashSets.LiteralIff | orderedhashset/include/pc/OrderedHashSet.hpp:56-78 | the code as written is that index on a run exactly when no operation names a key that is present |
| OrderedHashSets.IndexedErase | orderedhashset/include/pc/OrderedHashSet.hpp:71-78 | erasing through the iterator of the map keeps list and map in agreement |
| OrderedHashSets.InsertIndexed | orderedhashset/include/pc/OrderedHashSet.hpp:56-69 | appending the new node and erasing the old one deletes the key and appends it, with list and map in agreement |
| OrderedHashSets.OrderedHashSet.Insert | orderedhashset/include/pc/OrderedHashSet.hpp:56-69 | the contents after insertion, with and without the missing store |
| OrderedHashSets.OrderedHashSet.Remove | orderedhashset/include/pc/OrderedHashSet.hpp:71-78 | the contents after removal, with and without the missing store |
| MostRecentTimestamps.Timestamps.UpdateSingle | deadliner/include/pc/deadliner/MostRecentTimestamps.hpp:70-74 | the history gains the activity; the list is what the whole history leaves, and sorted |
| MostRecentTimestamps.Timestamps.UpdateFor | deadliner/include/pc/deadliner/MostRecentTimestamps.hpp:56-68 | the history gains an activity of every socket of the set, once, in some order; the list is what the whole history leaves, and sorted |
| MostRecentTimestamps.Timestamps.Remove | deadliner/include/pc/deadliner/MostRecentTimestamps.hpp:95-104 | the same for removals |
| MostRecentTimestamps.Timestamps.RemoveSingle | deadliner/include/pc/deadliner/MostRecentTimestamps.hpp:105-110 | the same for one removal |
| MostRecentTimestamps.Timestamps.GetSocketsLessThanTimestamp | deadliner/include/pc/deadliner/MostRecentTimestamps.hpp:75-90 | over whatever was called before, the scan that stops early selects exactly the sockets whose latest operation is an activity at least timeout old; without the missing store, those that ever had one |
| MostRecentTimestamps.ScanFindsLatestOld | deadliner/include/pc/deadliner/MostRecentTimestamps.hpp:75-90 | over any history, with the store supplied: exactly the sockets whose latest operation is an activity at least timeout old |
| MostRecentTimestamps.LiteralScanFindsEverOld | deadliner/include/pc/deadliner/MostRecentTimestamps.hpp:75-90 | over any history, as written: exactly the sockets that ever had an activity at least timeout old |
| MostRecentTimestamps.LiteralScanSelectsTheActive | deadliner/include/pc/deadliner/MostRecentTimestamps.hpp:75-90 | a history where an active and a removed socket are both selected |
| Priorities.RescanIsRight | loadbalancer/include/pc/balancer/priority.hpp:96-107 | after any increment or decrement the indices are at a true least and a true greatest load |
| Priorities.RescanBreaksTies | loadbalancer/include/pc/balancer/priority.hpp:96-107 | which of several least or greatest loads the scan settles on: it stays, except that the last empty shard wins |
| Priorities.DecAllExact | loadbalancer/include/pc/balancer/priority.hpp:64-72 | several decrements that the load covers bring it down by their sum, in whatever order |
| Priorities.Priority.NextIndex | loadbalancer/include/pc/balancer/priority.hpp:48-52 | always an index of a least load |
| Priorities.Priority.MaxIndex | loadbalancer/include/pc/balancer/priority.hpp:53-57 | always an index of a greatest load |
| Priorities.Priority.SetMinMaxIdx | loadbalancer/include/pc/balancer/priority.hpp:96-107 | the loop makes the indices right, whatever they were, and settles ties as the scan function does |
| Priorities.Priority.IncPriority | loadbalancer/include/pc/balancer/priority.hpp:58-63 | one load goes up, indices right again |
| Priorities.Priority.DecPriority | loadbalancer/include/pc/balancer/priority.hpp:64-72 | one load goes down unless the amount exceeds it, in which case nothing happens |
| Priorities.Priority.SetPriority | loadbalancer/include/pc/balancer/priority.hpp:73-78 | one load is set, indices right again |
| Readers.CallsCompose | protocol/include/pc/protocol/ClientInfos.hpp:397-505 | frames and effect of two pieces of a stream that end on frame boundaries are those of the whole |
| Readers.HandledMeans | protocol/include/pc/protocol/ClientInfos.hpp:479-498 | what handling any list of packets comes to: the id last given, no warning left if there was a Blank or a Send, one increment a packet, exactly the Send packets read and the answers of the handshake queued, in order |
| Readers.NextHeaderFits | protocol/include/pc/protocol/ClientInfos.hpp:397-424 | in a stream of fitting frames, what follows whole frames starts with a fitting header |
| Clients.ClientInfo.constructor | protocol/include/pc/protocol/ClientInfo.hpp:44-50 | no id, no flag, one deadline increment already, and a window of 10 seconds |
| Clients.ClientInfo.TerminateThisCycleOrNext | protocol/include/pc/protocol/ClientInfo.hpp:76-93 | the first strike only sets the flag; one that finds a flag set shuts the socket down |
| ClientTables.ClientInfos.TakePacket | protocol/include/pc/protocol/ClientInfos.hpp:425-476 | completing a partial frame: exactly the missing bytes are received behind what is there, and the packet is the payload of window and new bytes, or how it ends follows from what the receives brought |
| ClientTables.ClientInfos.DecodeRound | protocol/include/pc/protocol/ClientInfos.hpp:357-505 | one turn of the loop leaves the packet, the bytes behind it, the stream and the script that one round of the reference reader leaves, or ends as that does, whatever the offset |
| ClientTables.ClientInfos.ReadForSingleSocket | protocol/include/pc/protocol/ClientInfos.hpp:348-514 | for every stream, script and buffer: the result, what is left of both, and everything it does to the client, the read list and the queue of replies are those of the reference call FastCall; the socket is shut down exactly if that terminates |
| ClientTables.ClientInfos.ReadForSingleSocketOnce | protocol/include/pc/protocol/ClientInfos.hpp:331-346 | the same for the single-shot form and SingleCall |
| Calls.FastCallHandlesItsFrames | protocol/include/pc/protocol/ClientInfos.hpp:348-514 | however a call ends, it handled exactly the frames that the parser finds in the bytes it received, what is left holds no frame, and it succeeded exactly if there were some frames and nothing is left |
| Calls.SingleCallHandlesItsFrame | protocol/include/pc/protocol/ClientInfos.hpp:331-346 | the same for the single-shot reader, one frame a successful call; only a frame as large as the whole buffer is received and refused |
| Calls.AheadRounds | protocol/include/pc/protocol/ClientInfos.hpp:357-505 | decoding frame by frame, with a receive whenever no header is there, comes to what drawing and decoding everything at once comes to |
| Calls.FastCallReadsIff | protocol/include/pc/protocol/ClientInfos.hpp:348-514 | for every stream, script and buffer, exactly when a call succeeds: what it draws ends on a frame boundary, or more than one byte into a fitting frame that the receives complete; and exactly when it terminates the connection: a receive brought nothing, or completing a fitting frame failed |
| Calls.SingleCallReadsIff | protocol/include/pc/protocol/ClientInfos.hpp:331-346 | the same for the single-shot reader: header and fitting frame come whole; header or frame bring nothing or find the socket closed |
| Calls.FastCallEnds | protocol/include/pc/protocol/ClientInfos.hpp:348-514 | how a call ends and what it leaves go together: a single byte received, a header with a size that does not fit, a frame too short for a command, a frame cut short; the deadline is incremented ahead of a packet exactly for a header whose frame is then not completed, or for that single byte |
| Calls.SingleCallEnds | protocol/include/pc/protocol/ClientInfos.hpp:331-346 | the same for the single-shot reader |
| Calls.RecoverableIsInvisible | protocol/include/pc/protocol/ClientInfos.hpp:374-384 | any number of recoverable errors in front of any receive of the drawing loop changes neither result, nor packets handled, nor what is left |
| Calls.InterruptedCallIsTheSame | network/include/pc/network/TCP.hpp:206-220 | so a call whose first receive is interrupted any number of times comes to what it comes to otherwise |
| Calls.HealthyCallReadsIff | protocol/include/pc/protocol/ClientInfos.hpp:348-514 | while whole fitting frames come in and every receive brings something, a call succeeds unless it draws up to a lone header byte, and then that is all the first receive brought or fills the buffer |
| Calls.OneByteBreaks | protocol/include/pc/protocol/ClientInfos.hpp:397-406 | a first receive of a single byte breaks the reader |
| Calls.LastByteTerminates | protocol/include/pc/protocol/ClientInfos.hpp:374-384 | a header byte on the last byte of the buffer ends a healthy connection |
| Calls.AgainTerminates | protocol/include/pc/protocol/ClientInfos.hpp:374-384 | so does an EAGAIN after a lone header byte |
| Calls.CompletionHasPatience | protocol/include/pc/protocol/ClientInfos.hpp:434-450 | up to 24 EAGAINs while a frame is completed do not |
| Calls.ShortCompletionBreaks | protocol/include/pc/protocol/ClientInfos.hpp:442-476 | a completion that is cut short after one byte breaks the reader |
| Calls.EmptyPayloadTerminates | protocol/include/pc/protocol/ClientInfos.hpp:408-418 | the single-shot reader gives up a connection for a frame without payload |
| Calls.RunsAgree | protocol/include/pc/protocol/ClientInfos.hpp:331-514 | two runs of successful calls over the same bytes, of whichever reader and however the bytes arrive, leave the same id, flag, increments, read list and replies, and decode as many frames |
| Calls.FastCallIsManySingleCalls | protocol/include/pc/protocol/ClientInfos.hpp:331-346 | a successful call of the fast reader that decodes k frames does what any successful single-shot calls over the same bytes do, and those are k calls |
| Calls.SingleCallTakesFrame | protocol/include/pc/protocol/ClientInfos.hpp:331-346 | on a stream that starts with a fitting frame, a single-shot call whose receives bring something takes exactly that frame |
| Calls.SingleCallsTakeFrames | protocol/include/pc/protocol/ClientInfos.hpp:331-346 | so there are such calls for every list of frames |
| ClientTables.ClientInfos.Insert | protocol/include/pc/protocol/ClientInfos.hpp:122-129 | a socket that is registered keeps its record; the socket is watched in any case |
| ClientTables.ClientInfos.Close | protocol/include/pc/protocol/ClientInfos.hpp:77-98 | exactly the registered ones among the sockets go, are closed once each and paid for at the balancer, and stay in the caller's list |
| ClientTables.ClientInfos.FilterSocketsToTerminate | protocol/include/pc/protocol/ClientInfos.hpp:135-176 | who is struck down, who is flagged, each of those with a HeartBeat queued for it, and who is passed on because the table does not have it |
| ClientTables.ClientInfos.Execute | protocol/include/pc/protocol/ClientInfos.hpp:177-237 | every packet that was read gets its callback and is queued to be written, in order: the answer to a registered client has its socket and command and says what it said, then a fixed text, then its id; that of any other says what it said; without clients all are dropped |
| ClientTables.ClientInfos.OldestSocket | protocol/include/pc/protocol/ClientInfos.hpp:273-278 | a registered socket |
| ClientTables.ClientInfos.RemoveOldestClientAndReturn | protocol/include/pc/protocol/ClientInfos.hpp:262-272 | the first client leaves the table, or a made-up one with socket -1 and weight 25 is returned |
| ClientTables.ClientInfos.Write | protocol/include/pc/protocol/ClientInfos.hpp:280-312 | packets go out in order up to the first one that finds its socket closed, exactly those that were accepted; that socket is shut down and the rest dropped |
| ClientTables.ClientInfos.PollClient | protocol/include/pc/protocol/ClientInfos.hpp:552-564 | a client is barred exactly if it is to be terminated or at least maxCount of its increments are within maxTime of a clock reading of the call; if it is not and has something to say, the reader's call is what happens, and otherwise nothing |
| ClientTables.ClientInfos.OnReadPoll | protocol/include/pc/protocol/ClientInfos.hpp:516-575 | for all events, streams, scripts and clock readings: what becomes of every client and its stream, the sockets to be terminated, read at and shut down, the replies and the packets to read are those of a fold over the events; it ends early exactly when the reader breaks. Read at are registered clients only; when no socket is reported twice, exactly those that were read from with success, and none of those that are newly to be terminated |
| Polls.PollComesTo | protocol/include/pc/protocol/ClientInfos.hpp:527-565 | what that fold comes to, socket by socket and without it: a socket is to be terminated exactly if it was before, hung up, is not registered, was to be terminated or too fast when the clock was read, or its call terminated; it is read at exactly if it was none of these and its call succeeded; each client and stream is left as its call leaves it, the others as they were; replies and packets to read are those of the packets handled, in the order of the events |
| Polls.EachForItself | protocol/include/pc/protocol/ClientInfos.hpp:527-565 | whatever the other sockets' events are and come to, a client whose event is reached fares as if it were the only one |
| ServerProtocol.ServerLearnProtocol.Add | protocol/include/pc/protocol/ServerLearnProtocol.hpp:38-44 | table, load and recency index after an addition |
| ServerProtocol.ServerLearnProtocol.RemoveOldestClientAndReturn | protocol/include/pc/protocol/ServerLearnProtocol.hpp:82-89 | table, load and recency index after a removal; a made-up client's weight is taken off the load as well |
| ServerProtocol.ServerLearnProtocol.PollRead | protocol/include/pc/protocol/ServerLearnProtocol.hpp:98-108 | that fold, and exactly the sockets that were read at without failing are noted as active at the time of the call, once each, unless the reader broke |
| ServerProtocol.ServerLearnProtocol.CloseSocketConnections | protocol/include/pc/protocol/ServerLearnProtocol.hpp:109-125 | exactly the registered ones among the sockets are closed, paid for and forgotten, and their number is what the callback is told |
| ServerProtocol.ServerLearnProtocol.ExecHealthCheck | protocol/include/pc/protocol/ServerLearnProtocol.hpp:58-77 | of the silent sockets, those registered without a flag are flagged and get a HeartBeat each, all others are handed to the caller to be shut down |
| Servers.Server.AcceptOne | sample/poll/server/src/main.cxx:205-218 | one round of the accept loop, a new client added to the shard that the balancer names, is the accept operation of the step system, on a least loaded shard |
| Servers.Server.Arrive | protocol/include/pc/protocol/ServerLearnProtocol.hpp:38-44 | a call of Add of one shard, for all shards and the balancer, is the run of its insertion and its increment |
| Servers.Server.Switch | sample/poll/server/src/main.cxx:60-63 | one round of the migration loop, a call of one shard and then of another, is the migration operation of the step system, so loads stay exact and no socket gets lost or doubled |
| Servers.Server.Depart | protocol/include/pc/protocol/ServerLearnProtocol.hpp:82-89 | a call of RemoveOldestClientAndReturn of one shard, for all shards and the balancer, is the run of a removal and its decrement |
| Servers.Server.DownCallback | sample/poll/server/src/main.cxx:41-68 | at most count migrations, all from a most to a least loaded shard, never the same client twice in a row; fewer only if there is nothing to move or the same client would move again |
| Servers.Server.CloseSocketConnections | protocol/include/pc/protocol/ServerLearnProtocol.hpp:109-125 | the closes, after the events that named the sockets, and the migrations after them are operations of the step system; the closes take exactly the named clients out of the shard, close them once each and leave the other shards alone |
| Balance.CloseSettles | protocol/include/pc/protocol/ServerLearnProtocol.hpp:109-125 | a close of any named sockets, in any order, can be taken in every settled state, leads to a settled one and takes exactly those clients out of its shard |
| Refinement.Add | protocol/include/pc/protocol/ServerLearnProtocol.hpp:38-44 | a call that arrives with the client of an addition in flight is the run of its insertion and its increment, for the shard's table and the balancer; the other shards are as they were |
| Refinement.RemoveOldestClientAndReturn | protocol/include/pc/protocol/ServerLearnProtocol.hpp:82-89 | a call is the run of a removal and its decrement, made-up clients included, and the client that is returned is in hand; the other shards are as they were |
| Refinement.CloseSteps | protocol/include/pc/protocol/ClientInfos.hpp:77-98 | what close promises of table and load is what one close step a socket does, first of the registered ones in their order, then of the others, and those steps do nothing else |
| Refinement.ClosedByRun | protocol/include/pc/protocol/ClientInfos.hpp:77-98 | one close step for each doomed socket comes to exactly this: the registered clients leave the table, are paid for and closed in that order; besides what that makes the load drift by, nothing else changes |
| Refinement.CloseSocketConnections | protocol/include/pc/protocol/ServerLearnProtocol.hpp:109-125 | a call with the sockets that a poll has doomed is that run: its steps are named, the registered sockets are closed in its order, none is left to be closed, and log, operations in flight and the other shards are as they were |
| Refinement.CheckSteps | protocol/include/pc/protocol/ClientInfos.hpp:135-176 | what the filter promises is what a run of check steps does, one a selected socket, with the log that the two-strike results are about |
| Refinement.ExecHealthCheck | protocol/include/pc/protocol/ServerLearnProtocol.hpp:58-77 | a call is such a run; the sockets it shuts down are those logged as struck, and the HeartBeats it queues those logged as queued |
| Refinement.PollRuns | protocol/include/pc/protocol/ClientInfos.hpp:527-565 | a poll of any events is the run of a parse step for each packet that the fold over the events handles and a poll step for each socket that it dooms, in their order; it leaves the shard's table and the doomed sockets as the fold does, logs a sign of life for each Blank and Send that was handled, and changes nothing else |
| Refinement.PollRead | protocol/include/pc/protocol/ServerLearnProtocol.hpp:98-108 | a call is the run of the steps that its visits name, with their log; the sockets that it hands on are those doomed after it, and the other shards are as they were |
| ServerSteps.RunConcat | sample/poll/server/src/main.cxx:70-101 | runs compose |
| ServerSteps.AcceptRuns | protocol/include/pc/protocol/ServerLearnProtocol.hpp:38-44 | the steps of an addition, with nothing in between, come to one update of one shard and its load |
| ServerSteps.MigrateRuns | sample/poll/server/src/main.cxx:60-63 | the steps of a migration, with nothing in between, move one client and its weight |
| Ownership.StepKeepsOwned | protocol/include/pc/protocol/ClientInfos.hpp:83-98 | every step keeps every accepted socket in exactly one place: an operation in flight, one shard, or closed |
| Ownership.RunKeepsOwned | protocol/include/pc/protocol/ServerLearnProtocol.hpp:38-44 | so does every run, however operations interleave |
| Ownership.ServerKeepsOwned | sample/poll/server/src/main.cxx:205-218 | so does every run of a server from its start |
| Ownership.ClosedOnce | protocol/include/pc/protocol/ClientInfos.hpp:83-98 | no accepted socket is closed twice |
| Ownership.InShardIff | protocol/include/pc/protocol/ClientInfos.hpp:83-129 | over every run, the shard has a socket exactly if the last that happened to it there is an insertion, or it was there before and was never taken out |
| Ownership.StaleEventClosesIff | protocol/include/pc/protocol/ClientInfos.hpp:546-551 | whatever runs between an event of a socket that its shard no longer has and the close: the close takes the socket down exactly if it was put back and not taken out again, and otherwise changes nothing but its own list |
| Ownership.StaleEventClosesReturned | sample/poll/server/src/main.cxx:47-66 | a run from the start where that closes a live client |
| Accounting.StepKeepsAccounted | loadbalancer/include/pc/balancer/priority.hpp:58-72 | load plus pending increments is weight of the clients plus pending decrements plus drift, through every step |
| Accounting.RunKeepsAccounted | loadbalancer/include/pc/balancer/priority.hpp:58-72 | and through every interleaved run |
| Accounting.ServerKeepsAccounted | loadbalancer/include/pc/balancer/priority.hpp:58-72 | and so every run of a server from its start |
| Accounting.ServerStaysBalancedIff | protocol/include/pc/protocol/ServerLearnProtocol.hpp:38-44 | however the steps interleave, loads with what is pending are the weights throughout a run exactly if none of its steps drops a decrement, subtracts a made-up weight from a load that covers it, or inserts a key that is present |
| Accounting.ClosedTooSoon | protocol/include/pc/protocol/ClientInfos.hpp:83-98 | a run where a close before the increment leaves an empty shard with a load |
| Accounting.ExactIff | loadbalancer/include/pc/balancer/priority.hpp:58-72 | with nothing in flight, loads are the weights exactly if nothing has drifted |
| Phantoms.WholeOperationsStayExactIff | protocol/include/pc/protocol/ServerLearnProtocol.hpp:38-125 | through any run of operations that are not split, with those that meet an empty shard, every load is the weight of its shard at all times exactly if no made-up client is added where another one is |
| Phantoms.DoneRuns | protocol/include/pc/protocol/ServerLearnProtocol.hpp:82-89 | such an operation is a run of its steps |
| Phantoms.OnlyPhantomsMeet | protocol/include/pc/protocol/ClientInfos.hpp:122-129 | an accepted socket is never added where it is already |
| Phantoms.PhantomsAreHarmlessApart | protocol/include/pc/protocol/ServerLearnProtocol.hpp:82-89 | until two of them meet, taking a made-up client from an empty shard changes no load |
| Phantoms.PhantomSubtractsIff | protocol/include/pc/protocol/ServerLearnProtocol.hpp:82-89 | taking one changes a load exactly if that load has drifted by at least the made-up weight |
| Phantoms.PhantomsDoMeet | sample/poll/server/src/main.cxx:47-66 | a run from the start where they meet, and a shard is left empty with a load |
| Balance.MigrateSettles | sample/poll/server/src/main.cxx:47-66 | a whole migration can be taken in every settled state and leads to a settled one |
| Balance.ServerStaysBalanced | sample/poll/server/src/main.cxx:47-66 | over every run of accepts and migrations of clients of weight at most w, loads stay within 2w of each other |
| Balance.AcceptsStayBalanced | sample/poll/server/src/main.cxx:205-218 | with accepts only they stay within w, and m times the greatest load is at most the total plus (m - 1) * w |
| Balance.NoShardIsOverloaded | loadbalancer/include/pc/balancer/priority.hpp:48-57 | the share of the most loaded shard, from the spread |
| Balance.SpreadIsReached | sample/poll/server/src/main.cxx:47-66 | a run where one migration brings the spread from nothing to 2w |
| TwoStrike.StandingMeans | protocol/include/pc/protocol/ClientInfo.hpp:76-93 | what a log must hold for a socket to stand warned, or warned with its HeartBeat queued |
| TwoStrike.StruckOnlyInVain | protocol/include/pc/protocol/ClientInfos.hpp:135-176 | in every run, a client is struck down only after an earlier check flagged it and queued its HeartBeat, with no Blank or Send of it parsed since |
| TwoStrike.SecondStrikeHits | protocol/include/pc/protocol/ClientInfo.hpp:76-93 | a client that is silent between two checks that come across it is struck down by the second, wherever it has migrated |
| TwoStrike.PassedOnIff | protocol/include/pc/protocol/ClientInfos.hpp:150-154 | whatever runs between the selection of a socket and the check of it: it is passed on without a warning exactly if it was taken out of the shard, or never there, and not put in since |
| TwoStrike.MovedClientIsShut | protocol/include/pc/protocol/ClientInfos.hpp:150-154 | a run where that hits a live client that nobody ever warned |
| TwoStrike.FlagAfterIs | protocol/include/pc/protocol/ClientInfos.hpp:479-498 | Blank and Send clear the flag and no other packet does |
| Pipelines.LineKept | protocol/include/pc/protocol/ClientInfos.hpp:177-237 | splicing, answering and sending keep the line of requests as it is |
| Pipelines.LineShrinks | protocol/include/pc/protocol/ClientInfos.hpp:280-312 | what is dropped is one connected piece of the line |
| Pipelines.StepKeepsInv | protocol/include/pc/protocol/ClientInfos.hpp:177-237 | every step of poll thread, executor and others keeps conservation, order and contents, whatever tables the callbacks find |
| Pipelines.PipelineConserves | protocol/include/pc/protocol/ClientInfos.hpp:567-574 | in every run each parsed Send is in exactly one stage or lost, once; answers leave in the order their requests were parsed; and each says its request and then the id of its client in a table that the callbacks of the run found, or just its request if the client was gone |
| Pipelines.AnswerSaysBack | sample/poll/server/src/main.cxx:32-36 | what the callback makes of a packet is the one packet with its socket and command that says this |
| Pipelines.DrainedIsCompleteIff | protocol/include/pc/protocol/ClientInfos.hpp:280-312 | when none is under way any more, all requests have been answered, in order, exactly if none was lost |
| Pipelines.NothingIsLostIff | protocol/include/pc/protocol/ClientInfos.hpp:516-575 | over every run, nothing is lost exactly if no callbacks found the table empty, every write was accepted, and no reader broke in a poll that had read a Send |
| Pipelines.ClosedSocketLosesOthers | protocol/include/pc/protocol/ClientInfos.hpp:290-297 | a run where a closed socket costs another client its answer |
| Pipelines.WriteCallRuns | protocol/include/pc/protocol/ClientInfos.hpp:280-312 | a whole call of Write is a run of its steps that sends what the call sends |
| Pipelines.ExecuteCallRuns | protocol/include/pc/protocol/ClientInfos.hpp:177-237 | a whole call of Execute is a run of its steps that queues what the call queues |
| Pipelines.PollCallRuns | protocol/include/pc/protocol/ClientInfos.hpp:516-575 | a whole call of OnReadPoll is a run of its steps: the Sends it reads become packets to read, or are lost if the reader breaks |
| Handshakes.StepMoves | protocol/include/pc/protocol/ClientLearnProtocol.hpp:66-92 | every step takes one of the four messages one place further, or none, and keeps everything else where it belongs |
| Handshakes.StepRanks | protocol/include/pc/protocol/ClientLearnProtocol.hpp:66-92 | every step but a HeartBeat brings the exchange nearer to its end |
| Handshakes.HandshakeIsSafe | protocol/include/pc/protocol/ClientInfos.hpp:483-493 | in every run: the server knows the client's own id or none, success means that it knows it, the set-up messages on the wire are a prefix of the four, and the number of steps is bounded |
| Handshakes.HandshakeOutcome | protocol/include/pc/protocol/ClientLearnProtocol.hpp:66-92 | a faultless run that cannot go on has succeeded exactly if no HeartBeat was queued before Join, and has failed otherwise |
| Handshakes.EarlyHeartBeatBreaks | protocol/include/pc/protocol/ClientLearnProtocol.hpp:74-79 | a faultless run that fails because of a HeartBeat |
| Handshakes.SetupCallRuns | protocol/include/pc/protocol/ClientLearnProtocol.hpp:66-92 | a whole call of SetupConnection is a run of the client's steps that succeeds if the call does, sends what it sends and leaves unread what it leaves |
| Handshakes.RunIsSetupCall | protocol/include/pc/protocol/ClientLearnProtocol.hpp:66-92 | in every run, a client that is through has succeeded exactly if such a call does on what the client could send and read, and it has sent and read just what the call does |

## Left out

- Servers.Server: its loops run one at a time, between polls, and polls and health checks are not among them; what interleaves with what is in ServerSteps, and a poll or a health check of one shard is a run of it in Refinement.
- ClientTables.ClientInfos.OnReadPoll: one call reads from its sockets one after the other; each socket has a stream of its own, and what epoll reports is given.
- Refinement.ExecHealthCheck: is about clients whose terminateNow nobody has set, as nobody does.
- ClientTables.ClientInfos.ReadForSingleSocket: an aborting assertion, the exception for a packet that is too large and a wrapped counter are all modelled as a result that ends the call, without what the program does next.
- ClientTables.ClientInfos.ReadForSingleSocketOnce: a call ends when only one byte of the header came, where the code takes the other one from what the buffer held before, and at a size beyond the buffer before the receive that would overrun it.
- Tcp.RecvAsManyAsPossible: retries after recoverable errors without limit in the code; the script of outcomes is finite, and running off it is the end of the stream.
- ClientProtocol.ClientLearnProtocol.SetupConnection: Link.Read stands for NetworkPacket::Read with its poll timeout; the byte-level reading of the client side is not modelled.
- Deadlines.DifferenceInNanos: exact integers instead of the floating-point product, which is exact below 2^53 nanoseconds.
- Deadlines.Deadline.Breached: takes a sample of the same instant as not newer; the code asserts that the clock has advanced in builds with assertions.
- Pipelines.PipelineConserves: order is per shard and for its one executor; nothing orders the requests that a client sends to two shards before and after a migration.
- Sending in parts (network/include/pc/network/TCP.hpp:320-351): after a partial send the code starts over at the first byte of the message; here a send is whole or not at all.
- The phantom socket -1 of RemoveOldestClientAndReturn can be registered in several shards; the ownership results are about accepted sockets.
- Blocking receives, that is recvFixedBytes without MSG_DONTWAIT: the protocol never uses them.
- Reuse of file descriptors: accepted sockets are fresh.
- Locks, spin locks, condition variables, thread affinity and the memory model: a locked section is one step, and so is a clock read with the insertion of its value.
- Socket, epoll, poll, address and UDP wrappers: system calls, replaced by oracles.
- The PostgreSQL configuration and run-time changes of a client's weight: weights are inputs.
- Shrinking a queue or balancer, MostRecentTimestamps::Reset and changeMaxCount: no caller in the server program.
- Wrap-around of the balancer's unsigned loads: loads are unbounded.
- balancer::naive, profiling, the network mock, printing, lexical_cast and the type traits: no property that needs a proof.
