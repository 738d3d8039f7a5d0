# KamaRPC-Go: verified model

A Dafny model of the hand-written transport of KamaRPC-Go and of what is built directly on it,
with proofs over every run, every input and every cutting of the byte stream. `dafny verify
dfyconfig.toml` checks everything.

| file | models |
|---|---|
| `GroupCommit.dfy`, `WireOrder.dfy`, `Progress.dfy`, `Writer.dfy` | the leader/follower writer of a connection: the step system and its invariant, integrity, attribution and order on the wire, progress, and the leader's code |
| `Multiplex.dfy`, `Shutdown.dfy`, `Pending.dfy`, `Future.dfy`, `Client.dfy` | senders, read loop and failer of a multiplexed client racing; how it comes to rest; the sharded table; futures; batches |
| `Varint.dfy`, `Header*.dfy`, `Message.dfy` | the wire format: varints, binary header, JSON header with its fast path, whole messages |
| `PacketBuffer.dfy`, `Receiver.dfy`, `EndToEnd.dfy` | the packet buffer on its array, the read loop, and the round trip under any chunking |
| `WeightedRR.dfy`, `Breaker.dfy`, `Pool.dfy` | smooth weighted round robin, circuit breaker, connection pool |
| `Handler.dfy`, `Server.dfy`, `FullCircle.dfy` | responses, the request loop with batching and its moving average, client, network and server together |
| `Float.dfy`, `Metrics.dfy` | float64 rounding of whole numbers and products, the latency histogram and its quantiles |

**How concurrency is modelled.** A protocol is a state, a set of actions, `Enabled` and `Next`.
One action is one lock section, one atomic operation, one socket write, one channel operation or
one callback; a run is any sequence of enabled actions, with any number of calls in flight. Fields
called history (`arrivals`, `blocks`, `issued`, `received`, `fired`, ...) are written but never read
by a step. Where a method of the source is also given as code (`TCPConnection`, `Future`), its
`log` is a run of the step system that leads to its state, and other calls may take steps between
its lock sections.

**How the rest is modelled.** Go slices are sequences, except the packet buffer, the histogram
and the weights, which are arrays changed in place. Object state is a class; each method is proved
against a function of the old state, and the lemmas are about that function. gzip and
encoding/json are the functions of `Messages.Library`; time, dialling, the socket, limiter and
service registry enter as parameters that may answer anything.

**What the proofs turned up.**

- A call whose arguments do not marshal has passed the breaker but records no outcome
  (`internal/client/client.go:153-158`). A half-open breaker stays so for ever exactly if no call
  is outstanding, and then its probe is such a call (`Breakers.StuckExactly`,
  `Breakers.StuckForEver`; a run in `Breakers.LeakedProbe`).
- The binary encoder writes header strings of any length, the parser takes at most 2^20 bytes
  (`internal/core/protocol/header_binary.go:103`): the round trip holds exactly for strings within
  the limit (`HeaderBinary.RoundTrip`). So a client understands a response exactly if the error in
  it is within the limit (`Handlers.ResponseUnderstood`, `Servers.ReplyUnderstood`): for an unknown
  service, if its name is at most 2^20 - 19 bytes long, and for an unknown method, if the names of
  service and method together are. The JSON fast path has no limit
  (`internal/core/protocol/header_json.go:198-215`): `FullCircle.LosesReply` is a request with a
  longer name whose client gets nothing.
- Both lengths of the fixed head are written modulo 2^32
  (`internal/core/protocol/message.go:112-113`). Headers the parser takes are never that long; of a
  longer body only what is left of its length arrives (`Messages.BinaryRoundTrip`). A JSON header
  can be that long; what is left of it is declined by the fast path (`Messages.JsonRoundTrip`).
- The dispatch threshold of 50 microseconds acts at 50008 nanoseconds, because the average drops
  what is above a multiple of eight (`Servers.SlowFrom50008`).
- A full pool that has found everything dead up to the end of the list goes on from the front in
  strides of two, because the list shrinks under a fixed turn
  (`internal/core/transport/tcp_connection_pool.go:61-77`). So the first living connection in the
  circle is served exactly if it stands between the turn and the end of the list or at an even
  position from the front, as long as some even position lives (`Pool.CircleServed`); `Pool.SkipsOne`
  is a pool in which it is not. `Pool.InStrides` and `Pool.AfterStrides` say it for every turn, and
  `Pool.FirstVisited` for every pool, turn and liveness.
- When a packet does not decode, the request loop ends without writing the responses it still
  holds (`internal/server/server.go:183-187`), which is when the last thing done was to answer into
  the buffer (`Servers.LeftExactly`). With calls answered in place and too little to fill the
  buffer, the responses lost are exactly those to the requests that the same read of the socket
  completed as the bad packet (`FullCircle.HandleToBad`); `FullCircle.LosesResponse` is such a
  stream. If every packet decodes and no write fails, nothing is lost
  (`Servers.RequestLoop.Handle`, `FullCircle.HandleGood`).
- The read loop returns an error of the socket at once, without looking at bytes that came along
  with it (`internal/core/transport/tcp_connection.go:143-149`). Packets are lost so exactly if
  those bytes complete one (`Receiver.LatePackets`, `Receiver.LosesLate`). The contract of io.Reader
  allows such a read; a plain TCP socket of Go returns no bytes with an error, so only another
  net.Conn behind the connection would show it.
- The float64 product behind a quantile gives the whole part of so many hundredths exactly for
  fewer than 142159079146801 calls; for that many the 99th asks for one sample later
  (`Metrics.ScaledExactly`).
- A batch takes back exactly the ids it has given out; that restores the table exactly if none of
  them was in use, which holds until the counter wraps (`Clients.RestoredExactly`).
- With a window size of zero or less the breaker's first failure already reaches the window
  (`Breakers.History` distinguishes the case).

## Model

| member | source | states |
|---|---|---|
| GroupCommit.StepKeepsInv | internal/core/transport/tcp_connection.go:232-297 | every lock section, short write, publish and wake-up keeps: one leader at most and exactly while writing, a batch only while writing, a batch that is neither current nor closed is in the leader's hand, every open batch holds exactly its members' bytes, the wire is what the flushes sent |
| WireOrder.Integrity | internal/core/transport/tcp_connection.go:232-297 | while no flush has failed, the wire is the whole payloads of distinct calls in lock order, followed at most by a prefix of the running flush |
| WireOrder.Attribution | internal/core/transport/tcp_connection.go:237-283 | each call's bytes are in at most one flush, once, and a call returns the error of the flush that carried its own bytes |
| WireOrder.Delivered | internal/core/transport/tcp_connection.go:232-297 | a call that returned without error has its bytes whole on the wire, whatever other flushes did |
| WireOrder.CarriedWhole | internal/core/transport/tcp_connection.go:262-297 | the same in any state that keeps the invariant, with the place on the wire |
| WireOrder.StepExtends | internal/core/transport/tcp_connection.go:262-283 | wire and lock order only grow, an ended flush is final, a detached batch is never appended to again |
| WireOrder.RunExtends | internal/core/transport/tcp_connection.go:262-283 | the same over whole runs |
| WireOrder.RealTimeOrder | internal/core/transport/tcp_connection.go:232-283 | a call that returned before another arrived precedes it in lock order, in an earlier flush, and byte for byte on the wire |
| WireOrder.ErrorIsSockets | internal/core/transport/tcp_connection.go:287-297 | a call returns an error only if a write on the socket reported it |
| WireOrder.ErrorReachesAll | internal/core/transport/tcp_connection.go:262-297 | when a write reports an error, every call whose bytes that flush carries returns exactly that error |
| Progress.StepDecreases | internal/core/transport/tcp_connection.go:232-297 | every step but the arrival of a call decreases one measure of all calls |
| Progress.RunBounded | internal/core/transport/tcp_connection.go:232-297 | without new arrivals a run is no longer than the measure |
| Progress.SomeoneMoves | internal/core/transport/tcp_connection.go:237-283 | as long as a call has not returned some call can take a step; no waiter is stranded |
| Progress.Terminates | internal/core/transport/tcp_connection.go:232-297 | finitely many calls: runs are bounded, and stuck means that all have returned |
| Writer.TCPConnection.Enter | internal/core/transport/tcp_connection.go:237-259 | the first lock section, as code, is the step Enter |
| Writer.TCPConnection.SocketWrite | internal/core/transport/tcp_connection.go:287-297 | one socket write puts any prefix out; without error at least one byte |
| Writer.TCPConnection.Flush | internal/core/transport/tcp_connection.go:287-297 | the write loop, with other calls joining between writes, ends where its step system says |
| Writer.TCPConnection.TakeBatch | internal/core/transport/tcp_connection.go:262-273 | the later lock section detaches the batch or ends the leadership |
| Writer.TCPConnection.Publish | internal/core/transport/tcp_connection.go:274-282 | the result of the flush goes to the batch and its waiters |
| Writer.TCPConnection.LeaderWrite | internal/core/transport/tcp_connection.go:232-283 | a leader returns the error of its own flush and leaves neither a batch nor the writing flag behind |
| Writer.TCPConnection.Drain | internal/core/transport/tcp_connection.go:262-283 | the drain loop ends only when no batch is left |
| Pending.ViewLookup | internal/core/transport/pending.go:31-51 | the shards answer every lookup like one plain map |
| Pending.ViewPut | internal/core/transport/pending.go:35-40 | storing in a shard stores in the plain map |
| Pending.ViewRemove | internal/core/transport/pending.go:42-59 | removing from a shard removes from the plain map |
| Pending.PendingMap.Store | internal/core/transport/pending.go:35-40 | adds the entry to the plain map |
| Pending.PendingMap.LoadAndDelete | internal/core/transport/pending.go:42-51 | returns the entry and removes it, or reports none |
| Pending.PendingMap.Delete | internal/core/transport/pending.go:53-59 | removes the entry |
| Pending.PendingMap.DrainAll | internal/core/transport/pending.go:61-73 | empties shard after shard and returns every future stored, once, in any order |
| Multiplex.StepKeepsInv | internal/core/transport/tcp_client.go:57-202 | every step of any sender, the read loop, the failer or a caller of Close keeps the invariant |
| Multiplex.ExactlyOnePlace | internal/core/transport/tcp_client.go:62-196 | a future a caller has or may still get is in exactly one place: pending under its id, with the read loop, with the failer, or completed |
| Multiplex.NoLostFuture | internal/core/transport/tcp_client.go:62-196 | once failure processing, read loop and senders are through, every future handed out is completed and the table is empty |
| Shutdown.StepDecreases | internal/core/transport/tcp_client.go:62-196 | in a closed client every step but a new call, a call of Close or a message decreases one measure of all senders, the read loop and the failer |
| Shutdown.HaltedWhenQuiet | internal/core/transport/tcp_client.go:62-196 | a closed client can take no step of its own exactly where all are through |
| Shutdown.ComesToRest | internal/core/transport/tcp_client.go:62-196 | from any reachable state of a closed client runs without new calls and messages are bounded, and one that cannot go on has lost no future |
| Multiplex.AllOrNothing | internal/core/transport/tcp_client.go:89-178 | a call that returned an error has left none of its futures pending, under any id |
| Multiplex.DistinctIds | internal/core/transport/tcp_client.go:57-59 | request ids are distinct until the counter wraps |
| Multiplex.OwnAnswer | internal/core/transport/tcp_client.go:62-86 | a future's result is the error of a received message with its own id, if that has one, or else its body, or the error that closed the connection; if all messages with its id have errors it is no body |
| Multiplex.AnswerArrives | internal/core/transport/tcp_client.go:62-86 | a message with the id of a pending future completes that future with what it carries and takes it out of the table; one with another id changes nothing |
| Multiplex.OneFutureEach | internal/core/transport/tcp_client.go:89-178 | a call that succeeds hands out exactly one future for each request, its own, in order |
| Multiplex.Reasons | internal/core/transport/tcp_client.go:62-202 | a call fails only for a closed connection, a message of its own that does not encode, or its own write that fails; the connection dies only of Close, of a read that fails, or of a fault of a call, but not of a message of a batch that does not encode |
| Multiplex.ClosedRefuses | internal/core/transport/tcp_client.go:89-128 | a call that finds the connection closed is refused and changes nothing; an empty batch returns at once |
| Multiplex.ResultIsFinal | internal/core/transport/tcp_client.go:62-196 | a result never changes in any later state |
| Multiplex.DoneFindsNoResult | internal/core/transport/tcp_client.go:75-85 | every Done by read loop or failer finds the future without a result |
| Futures.AtMostOnce | internal/core/transport/future.go:52-83 | under any interleaving the channel is closed at most once, a callback runs at most once and with the final error, and the result is final |
| Futures.ExactlyOnce | internal/core/transport/future.go:52-83 | when all calls are through and one was Done, the channel is closed once, and a callback ran exactly when it was registered after completion or is the last registered before |
| Futures.SoleCallback | internal/core/transport/future.go:52-83 | the callback of the only OnComplete runs exactly once, whichever call takes the lock first |
| Futures.FirstDoneWins | internal/core/transport/future.go:67-83 | the result is that of the call that was the first to be Done, and there is one exactly if some call was |
| Futures.Future.Done | internal/core/transport/future.go:67-83 | the first Done sets the result, later ones change nothing; as code it takes the steps of the system |
| Futures.Future.OnComplete | internal/core/transport/future.go:52-64 | before completion the callback is left behind, afterwards it is invoked with the result's error |
| Clients.TCPClient.SendAsyncBatch | internal/core/transport/tcp_client.go:122-178 | all or nothing: all on the wire in order and stored under consecutive ids; or, on an encoding error, what was stored taken back; or, on a write error, that and the connection dead and everything else in flight failed; ids wrap at 2^64 |
| Clients.TCPClient.EncodeBatch | internal/core/transport/tcp_client.go:146-157 | registers one future a message; at the first that does not encode, takes back what it has registered |
| Clients.TCPClient.BatchIs | internal/core/transport/tcp_client.go:146-157 | a batch encodes exactly if each message does under its own id, and is then their encodings in order |
| Clients.TCPClient.Rollback | internal/core/transport/tcp_client.go:137-144 | deletes the ids given out, and no other |
| Clients.RestoredExactly | internal/core/transport/tcp_client.go:137-144 | taking a batch back restores the table exactly if none of its ids was in use, as holds while the counter has not wrapped |
| Clients.OwnIds | internal/core/transport/tcp_client.go:146-151 | each future of a batch of at most 2^64 messages stands under its own id |
| Clients.TCPClient.Fail | internal/core/transport/tcp_client.go:186-196 | only the first failure drains the table and completes everything in it with its error |
| Varint.RoundTrip | internal/core/protocol/header_binary.go:37-50 | decoding an encoded value, whatever follows, gives the value and its length |
| Varint.StrictPrefix | internal/core/protocol/header_binary.go:60-64 | no strict prefix of an encoded value decodes |
| Varint.Canonical | internal/core/protocol/header_binary.go:92-99 | a decoded value fits 64 bits and its own encoding is no longer than what was read |
| Varint.EncodedLength | internal/core/protocol/header_binary.go:52-55 | five bytes hold exactly the values below 2^35, ten hold any 64-bit value |
| Varint.Groups | internal/core/protocol/header_binary.go:37-50 | byte i holds the i-th group of seven bits, the lowest first, and the high bit but in the last |
| Varint.Accepts | internal/core/protocol/header_binary.go:60-64 | exactly the whole varints of at most 64 bits are decoded, the shortest for their value or not, to the value of their groups |
| Varint.ValueGroups | internal/core/protocol/header_binary.go:60-64 | the groups of that value are the low seven bits of the bytes |
| Varint.Read | internal/core/protocol/header_binary.go:60-64 | the shift-and-add loop decodes |
| HeaderBinary.RoundTrip | internal/core/protocol/header_binary.go:37-115 | parsing an encoded header, whatever follows, gives the header if every string is at most 2^20 bytes, and fails otherwise |
| HeaderBinary.Layout | internal/core/protocol/header_binary.go:37-50 | the fields on the wire, one by one |
| HeaderBinary.PrefixRejected | internal/core/protocol/header_binary.go:59-115 | no strict prefix of an encoded header parses, whatever the length of its strings |
| HeaderBinary.Reencode | internal/core/protocol/header_binary.go:59-115 | whatever parses has strings no longer together than the input, and its encoding is no longer than the input and parses back |
| HeaderBinary.ReservationSuffices | internal/core/protocol/header_binary.go:52-55 | the reserved length suffices for strings below 2^35 bytes |
| HeaderBinary.Append | internal/core/protocol/header_binary.go:37-50 | the appending code produces the encoding behind the existing bytes |
| HeaderBinary.ReadLenPrefixed | internal/core/protocol/header_binary.go:92-115 | the cursor code takes one string or fails |
| HeaderBinary.ParseHeader | internal/core/protocol/header_binary.go:59-90 | the cursor code parses the header or fails |
| HeaderJson.ParseSound | internal/core/protocol/header_json.go:102-196 | whatever the fast path accepts is the text of an object in the grammar of sections 2, 4, 6 and 7 of RFC 8259, and the header is the last-wins reading of its members |
| HeaderJson.ParsePrinted | internal/core/protocol/header_json.go:102-196 | the fast path accepts every text of an object it understands, with any white space, and returns its reading |
| HeaderJson.FastPathExact | internal/core/protocol/header_json.go:102-196 | the fast path accepts exactly those texts |
| HeaderJson.FieldsRead | internal/core/protocol/header_json.go:102-196 | an object is accepted exactly if its members are among the six names, each with a value of its type and range; each field of the header is the value of the last member of its name, or zero |
| HeaderJson.DigitOf | internal/core/protocol/header_json.go:219-245 | the value of a number by its decimal digits |
| HeaderJson.NothingFollows | internal/core/protocol/header_json.go:102-196 | behind a text the fast path accepts it accepts only white space, and then reads the same |
| HeaderJson.PrefixRejected | internal/core/protocol/header_json.go:102-196 | the fast path accepts no strict prefix of the encoding of a header that needs no escaping |
| HeaderJson.RoundTrip | internal/core/protocol/header_json.go:45-73 | a header whose strings need no escaping survives encoding and fast path |
| HeaderJson.EncodeIsPrint | internal/core/protocol/header_json.go:45-73 | the literal pieces of the encoder make up the text of one object |
| HeaderJson.ReservationSuffices | internal/core/protocol/message.go:121-129 | the reserved 128 bytes beyond the strings suffice |
| HeaderJson.ParseHeaderFast | internal/core/protocol/header_json.go:102-196 | the cursor loops of the source compute the fast path |
| HeaderJson.ParseRawBytes | internal/core/protocol/header_json.go:198-215 | the string loop takes one string without escapes |
| HeaderJson.ParseUint | internal/core/protocol/header_json.go:219-245 | the number loop takes one number below 2^64, without leading zeros |
| HeaderJson.SkipSpaceAt | internal/core/protocol/header_json.go:88-97 | the white-space loop |
| HeaderJson.StringNeedsEscape | internal/core/protocol/header_json.go:34-41 | whether a byte of the string is not safe |
| HeaderJson.Append | internal/core/protocol/header_json.go:45-73 | the appending code, with the library behind strings that need escaping |
| Messages.Get32OfBe32 | internal/core/protocol/message.go:110-113 | lengths are kept modulo 2^32 |
| Messages.AppendEncoded | internal/core/protocol/message.go:56-116 | reserving the head, appending, and filling the lengths in afterwards appends the encoding and keeps what was there |
| Messages.DecodeInto | internal/core/protocol/message.go:143-183 | the checks and slices of the code decode a packet |
| Messages.DecodeFrame | internal/core/protocol/message.go:110-113 | a frame of any header and body decodes as its parts, cut to their lengths modulo 2^32 |
| Messages.DecodeNeeds | internal/core/protocol/message.go:149-183 | nothing is decoded but a whole packet with one of the two magics and a known compression |
| Messages.BinaryRoundTrip | internal/core/protocol/message.go:56-183 | a message that encodes with a binary header is rejected for an over-long string, and otherwise arrives with every field of its header as sent, the compression of a body under 512 bytes none, and its body, of which 2^32 bytes or more are cut |
| Messages.JsonRoundTrip | internal/core/protocol/message.go:50-54 | the same for messages with JSON headers that need no escaping; a header of 2^32 bytes or more is cut, declined by the fast path, and read as the library reads what is left of it |
| Messages.EncodeFails | internal/core/protocol/message.go:56-75 | encoding fails exactly for a missing header, or for a body of at least 512 bytes with an unknown compression or one that fails |
| Messages.Layout | internal/core/protocol/message.go:60-119 | the bytes of a message: magic, two lengths of four bytes, high byte first, the header, and the body, compressed if that was asked and it has 512 bytes |
| Framing.PacketsAppend | internal/core/transport/tcp_connection.go:38-94 | packets come out the same wherever the stream is cut |
| Framing.RestHasNoPacket | internal/core/transport/tcp_connection.go:38-65 | packets and rest make up the stream, and the rest is incomplete |
| Framing.PacketsPerRead | internal/core/transport/tcp_connection.go:133-151 | a read of n bytes onto an incomplete packet completes at most 1 + (n - 1) / 10 packets |
| Framing.PacketBuffer.ReadBorrowed | internal/core/transport/tcp_connection.go:38-65 | takes the packet at the head exactly if it is complete, as a slice of the array, which keeps its bytes |
| Framing.PacketBuffer.HasPacket | internal/core/transport/tcp_connection.go:69-81 | exactly when the next read would succeed |
| Framing.PacketBuffer.Write | internal/core/transport/tcp_connection.go:84-94 | appends to the queue, with or without compaction and growth; packets handed out and those of the queue stay the packets of everything written |
| Receiver.Connection.ReadBorrowed | internal/core/transport/tcp_connection.go:133-151 | returns the next message of the stream; reads the socket exactly if no packet is buffered; after a socket read at most 409 more packets are buffered; after an error it returns without looking at the bytes that came along |
| Receiver.Connection.ReadCounted | internal/core/transport/tcp_connection.go:133-151 | the same with the reads of the socket counted, and what was taken off the packets of the stream |
| Receiver.Connection.ReadAll | internal/core/transport/tcp_client.go:62-73 | reading until the end gives the messages of the stream's packets |
| Receiver.LatePackets | internal/core/transport/tcp_connection.go:143-149 | bytes that come along with an error complete no packet exactly if the incomplete one at the end of the stream stays so; otherwise they complete packets behind all others |
| Receiver.LateMessages | internal/core/transport/tcp_connection.go:143-149 | the messages lost so |
| Receiver.LosesLate | internal/core/transport/tcp_connection.go:143-149 | a packet that comes along with the error is not handed out |
| Receiver.TakeTakes | internal/core/transport/tcp_connection.go:133-151 | a packet takes just as many reads of the socket as bring in its last byte |
| Receiver.BehindIs | internal/core/transport/tcp_connection.go:133-151 | so do the first k packets of any stream in any chunks |
| Receiver.PacketsOfMany | internal/core/transport/tcp_connection.go:38-65 | whole packets in a row with an incomplete one behind are cut apart again |
| EndToEnd.AnyCutting | internal/core/transport/tcp_connection.go:133-151 | however the bytes of encoded messages are cut, the packets are the encodings, whether the receiver accepts them or not |
| EndToEnd.AnyChunking | internal/core/transport/tcp_connection.go:133-151 | however the bytes of encoded messages are cut, and whatever incomplete packet follows, exactly those messages are decoded, in order, each with the fields and the body as sent |
| EndToEnd.AppendAll | internal/core/transport/tcp_client.go:146-157 | messages appended one by one keep the prefix and stand in a row |
| EndToEnd.Transfer | internal/core/transport/tcp_connection.go:133-151 | the appending code and the reading code together deliver the messages, each with the fields and the body as sent |
| WeightedRR.Balancer.constructor | internal/client/loadbalance/weighted_rr.go:20-39 | copies the weights, counts negative ones as zero, sums them |
| WeightedRR.Balancer.Select | internal/client/loadbalance/weighted_rr.go:41-67 | one selection, as code: the first node with the largest weight after each has been raised by its own, and only that node pays the sum of all |
| WeightedRR.FirstMaxIsFirstMax | internal/client/loadbalance/weighted_rr.go:56-62 | the choice is the first node with the largest current weight |
| WeightedRR.ChoiceLeads | internal/client/loadbalance/weighted_rr.go:54-66 | selection after selection the choice is the first node with the largest raised weight, and only that pays |
| WeightedRR.Balanced | internal/client/loadbalance/weighted_rr.go:41-67 | after n selections the current weights sum to zero and each is n * w - W * count, above -W |
| WeightedRR.Deviation | internal/client/loadbalance/weighted_rr.go:41-67 | at every prefix the deviation lies within [1 - W, (k - 1)(W - 1)] |
| WeightedRR.ZeroWeightNeverChosen | internal/client/loadbalance/weighted_rr.go:41-67 | only nodes of positive weight are chosen |
| WeightedRR.Period | internal/client/loadbalance/weighted_rr.go:20-67 | after W selections each node was chosen exactly as often as its weight, all is back at zero and the choices repeat |
| WeightedRR.BackAtZero | internal/client/loadbalance/weighted_rr.go:41-67 | the current weights are zero after n selections exactly when W divides every n * w |
| WeightedRR.AnyWindow | internal/client/loadbalance/weighted_rr.go:41-67 | any W selections in a row choose each node exactly as often as its weight |
| Breakers.CircuitBreaker.AllowCall | internal/client/breaker/breaker.go:65-94 | admits and changes state as the state machine says, with the clock read once for the test and once for the time of the change |
| Breakers.CircuitBreaker.RecordSuccess | internal/client/breaker/breaker.go:97-113 | changes state as the state machine says |
| Breakers.CircuitBreaker.RecordFailure | internal/client/breaker/breaker.go:116-145 | changes state as the state machine says |
| Breakers.History | internal/client/breaker/breaker.go:65-165 | in every reachable state: closed counters are the outcomes since the last reset and below the window, open and half-open ones are zero, half-open has its probe taken and admits nothing |
| Breakers.OpensExactly | internal/client/breaker/breaker.go:116-145 | a closed breaker opens exactly on a failure with total at least the window and failures at least threshold * total |
| Breakers.ProbeDecides | internal/client/breaker/breaker.go:97-145 | half-open: a success closes with nothing counted and admits at once, a failure opens anew and admits only after the timeout, nothing else leaves it |
| Breakers.OpenWaits | internal/client/breaker/breaker.go:71-79 | open: outcomes change nothing; a call is admitted, and makes it half-open, exactly once more than the timeout has passed |
| Breakers.ClosedAdmits | internal/client/breaker/breaker.go:65-145 | closed: every call is admitted, and only a failure opens, at its time |
| Breakers.OutcomeRecorded | internal/client/client.go:133-190 | a completed request records a success exactly if it ended without error; a call that gets no connection or cannot be sent records a failure; marshalling and sending record nothing |
| Breakers.ProbeSpacing | internal/client/breaker/breaker.go:65-165 | from open on, without a recorded success, k more admitted calls take more than k timeouts |
| Breakers.OneOutcome | internal/client/client.go:133-190 | an admitted single call records exactly one outcome once it is through, or none if it did not marshal |
| Breakers.ProbeSettles | internal/client/client.go:133-190 | with all calls through, half-open means that the probe did not marshal |
| Breakers.StuckForEver | internal/client/client.go:153-158 | then every later call is rejected |
| Breakers.StuckExactly | internal/client/client.go:133-190 | a half-open breaker stays so in every continuation exactly if no call is outstanding, and then the probe did not marshal |
| Breakers.LoneProbe | internal/client/client.go:133-190 | a lone probe leaves the breaker half-open exactly if it did not marshal |
| Breakers.LeakedProbe | internal/client/client.go:153-158 | a run in which that happens |
| Pool.ConnectionPool.Acquire | internal/core/transport/tcp_connection_pool.go:37-84 | errors change nothing; below the limit it dials; at the limit the loop takes the turn, and dials only when all were dead; the size never exceeds the limit |
| Pool.EvictsOnlyDead | internal/core/transport/tcp_connection_pool.go:61-77 | if connections only die, a turn evicts dead ones only, keeps the order of the others and hands out one that was alive |
| Pool.SparesTheLiving | internal/core/transport/tcp_connection_pool.go:61-77 | while one stays alive during the call, a pooled connection is handed out without dialling, and the living one stays |
| Pool.TurnPasses | internal/core/transport/tcp_connection_pool.go:61-69 | the next turn starts right behind the connection handed out |
| Pool.FirstInLine | internal/core/transport/tcp_connection_pool.go:61-77 | the first living connection up to the end of the list gets the turn, and what was passed over is gone |
| Pool.BackToTheFront | internal/core/transport/tcp_connection_pool.go:61-77 | if none is, the turn goes on at the front |
| Pool.InStrides | internal/core/transport/tcp_connection_pool.go:61-77 | with the turn q times around the list and r further, the first living connection in strides of q + 1 from r on gets it |
| Pool.AfterStrides | internal/core/transport/tcp_connection_pool.go:61-77 | if those are all dead the turn goes on through what the strides left over |
| Pool.EverySecond | internal/core/transport/tcp_connection_pool.go:61-77 | once all up to the end of the list were dead, the first living one of every second from the front gets the turn |
| Pool.CircleServed | internal/core/transport/tcp_connection_pool.go:61-77 | the first living connection in the circle is served exactly if it stands up to the end of the list or at an even position, as long as some even position lives |
| Pool.FirstVisited | internal/core/transport/tcp_connection_pool.go:61-77 | for any pool, turn and liveness the first that is alive when looked at, in the order of the visits, gets the turn, and nobody if there is none |
| Pool.VisitsEach | internal/core/transport/tcp_connection_pool.go:61-77 | the visits are each connection once |
| Pool.LeavesTheRest | internal/core/transport/tcp_connection_pool.go:61-77 | the turn leaves in the pool all but the connections visited before |
| Pool.SkipsOne | internal/core/transport/tcp_connection_pool.go:61-77 | a pool of four in which the next living connection, at an odd position, is passed over |
| Pool.ConnectionPool.AcquireMany | internal/core/transport/tcp_connection_pool.go:61-69 | calls in a row on a full living pool give the connections in turn |
| Pool.EachExactlyOnce | internal/core/transport/tcp_connection_pool.go:61-69 | as many calls as connections give each exactly once |
| Handlers.AppendErrorResponse | internal/server/handler.go:106-121 | appends exactly the frame of the error message; decoded it carries the id and the error, and nothing else, if that is at most 2^20 bytes long |
| Handlers.AppendResponse | internal/server/handler.go:70-103 | appends exactly one frame, of the reply or of the first error on the way, of encoding the reply too, and says which |
| Handlers.ResponseEncodes | internal/server/handler.go:70-121 | the response can always be encoded and carries the id of the request |
| Handlers.ErrorAnswer | internal/server/handler.go:106-121 | an error response is understood exactly if its error is at most 2^20 bytes long, and then carries it, with the id and nothing else |
| Handlers.ResponseAnswers | internal/server/handler.go:70-140 | the response is what the request asked for: the method called with the codec named or else the default one, its reply in that codec, or the first error on the way |
| Handlers.ResponseUnderstood | internal/server/handler.go:70-140 | a response is understood exactly if the error in it is, if there is one; about an unknown method, exactly if the two names leave room for its 19 bytes; then it is the answer to the request, if its body goes out below 2^32 bytes |
| Handlers.OneFrame | internal/server/handler.go:70-121 | a response is one packet, which decodes exactly if its error is within the limit, and then to the answer to the request |
| Handlers.UnknownServiceAnswer | internal/server/server.go:196-201 | the error about an unknown service can be parsed exactly if the name, of any length, leaves room for its 19 bytes, and then repeats the name |
| Servers.RequestLoop.Handle | internal/server/server.go:156-240 | every run follows the rules; requests are those of the first packets; the loop ends with all packets taken up and nothing unwritten, or at a packet that does not decode, or at a write that failed |
| Servers.RequestLoop.Round | internal/server/server.go:170-239 | one round; at a packet that does not decode responses are lost exactly if some were pending and it was already in the buffer at the top |
| Servers.RequestLoop.TakeUp | internal/server/server.go:189-239 | limits, dispatches or answers one request by the rules; fails only with a write |
| Servers.RequestLoop.ReadRequest | internal/server/server.go:180-187 | reads the next request by the rules; counts the reads of the socket; fails at the end of the packets or at one that does not decode |
| Servers.TakenUpAll | internal/server/server.go:180-187 | requests taken up are what the packets decode to, all of them up to the first bad one |
| Servers.NothingLostOrDoubled | internal/server/server.go:170-239 | written bytes and buffer are the responses given so far, once each, in order |
| Servers.NobodyWaits | internal/server/server.go:170-212 | whenever the socket is read, for a request or in vain, or a goroutine started, every response given has been written |
| Servers.WrittenTogether | internal/server/server.go:170-178 | the buffer is written with less than 65536 bytes only for the socket to be read or a goroutine to be started next |
| Servers.WrittenWhenFull | internal/server/server.go:234-239 | with 65536 bytes behind the answer to a call the buffer is written at once |
| Servers.LeftExactly | internal/server/server.go:183-187 | when a run stops, responses are left unwritten exactly if the last thing before was an answer into the buffer, and then the last packet was there already |
| Servers.OneReplyEach | internal/server/server.go:170-239 | without goroutines every request read has its own response, in order of arrival |
| Servers.AtMost410 | internal/server/server.go:170-187 | at most 410 requests are taken up between two reads of the socket |
| Servers.ReplyUnderstood | internal/server/server.go:189-239 | the response to a request is understood exactly if it was rate-limited, or its service unknown with a name that leaves room, or its response is; and then it is the right answer: limited first, then the service, then the call |
| Servers.ClientReads | internal/server/server.go:170-239 | a client reading the output gets the right answer to each request, in order, up to the first response it does not understand, and no further |
| FullCircle.Serve | internal/server/server.go:156-240 | encoded requests in any chunks, the request loop, and a client reading the output in any chunks: the k-th reply is the right answer to the k-th request, up to the first that the client does not understand |
| FullCircle.LongNameSendable | internal/core/protocol/header_json.go:198-215 | a JSON header with a service name of 2^20 bytes is sent and taken |
| FullCircle.LosesReply | internal/server/server.go:196-201 | if the server does not know that service, the client gets nothing |
| FullCircle.HandleGood | internal/server/server.go:156-240 | if every packet decodes and no write fails, every request is taken up and nothing is left unwritten |
| FullCircle.HandleToBad | internal/server/server.go:156-240 | at the first packet that does not decode, the responses lost are exactly those to the requests completed by the same read of the socket, and the others are written; for calls answered in place that do not fill the buffer |
| Receiver.GroupOf | internal/core/transport/tcp_connection.go:133-151 | which packets one read of the socket completes, from the sizes of chunks and packets |
| FullCircle.LosesResponse | internal/server/server.go:183-187 | a rate-limited request and a packet that does not decode in one read of the socket: the response stays in the buffer |
| FullCircle.TenZeros | internal/core/protocol/message.go:149-152 | ten zero bytes are such a packet |
| Servers.EwmaRises | internal/server/server.go:261-263 | one cost of at least c raises an average below 8 * (c / 8), and leaves one from there on so |
| Servers.EighthOfTheWay | internal/server/server.go:261-263 | one call moves the average an eighth of the way to its cost, but for what the divisions drop |
| Servers.Smoothed | internal/server/server.go:252-264 | over every run, after n calls folded in with costs from c to max, the average is within 8 of c to max times 1 - (7/8)^n |
| Servers.AverageBounds | internal/server/server.go:252-264 | over every run the average never exceeds the largest cost, and with costs of at least c it rises with every call folded in until at least 8 * (c / 8) and stays there |
| Servers.RacingBounds | internal/server/server.go:261-279 | folded by loop and goroutines in any order, with updates lost: never above the largest cost, and after the first at least an eighth of the smallest |
| Servers.SlowFrom50008 | internal/server/server.go:204 | a constant cost reaches the goroutines exactly from 50008 ns on |
| Servers.FastStaysInPlace | internal/server/server.go:204 | runs with costs below 50008 ns never start a goroutine |
| Servers.SlowGetsGoroutines | internal/server/server.go:204 | runs of calls of at least 50008 ns start one within 50002 requests |
| Metrics.BucketIndex | internal/core/metrics/metrics.go:88-95 | finds the first bucket whose bound is not exceeded |
| Metrics.BucketsOrdered | internal/core/metrics/metrics.go:17-23 | a longer latency never has an earlier bucket |
| Metrics.OneTwoFive | internal/core/metrics/metrics.go:17-23 | the seventeen bounds |
| Metrics.PercentileMS | internal/core/metrics/metrics.go:154-171 | reports the bound of the first bucket that reaches the target, computed in float64, or zero without calls |
| Metrics.Cumulate | internal/core/metrics/metrics.go:163-170 | the cumulating loop finds that bucket |
| Metrics.TargetInRange | internal/core/metrics/metrics.go:158-161 | despite the rounding of float64 a larger quantile never asks for an earlier sample, nor for more than there are |
| Metrics.ScaledExactly | internal/core/metrics/metrics.go:158 | the float64 product is the whole part of so many hundredths for fewer than 142159079146801 calls; for that many the 99th gives one more |
| Floats.RoundMonotone | internal/core/metrics/metrics.go:158 | rounding to 53 significant bits keeps the order |
| Floats.RoundError | internal/core/metrics/metrics.go:158 | whole numbers below 2^53 are exact, others off by at most one part in 2^53 |
| Floats.NoneNearer | internal/core/metrics/metrics.go:158 | no multiple of the unit is nearer than the rounded number |
| Metrics.MaxSeenMS | internal/core/metrics/metrics.go:173-180 | the downward loop finds the last bucket in use |
| Metrics.QuantileBucket | internal/core/metrics/metrics.go:154-171 | that bucket is the one of the target-th smallest sample, however the samples are ordered |
| Metrics.HighestBucket | internal/core/metrics/metrics.go:173-180 | the last bucket in use is that of the largest sample |
| Metrics.BoundIsTight | internal/core/metrics/metrics.go:182-188 | a sample lies above the bound before its bucket's and not above its own, outside the overflow bucket |
| Metrics.QuantilesOrdered | internal/core/metrics/metrics.go:111-151 | a smaller quantile reports no more than a larger one or the maximum |
| Metrics.WholeHundredths | internal/core/metrics/metrics.go:154-171 | for fewer than 142159079146801 calls each quantile is the bound of the bucket of the sample at that many whole hundredths |
| Metrics.TotalIsSum | internal/core/metrics/metrics.go:49-66 | the number of calls is the sum of the buckets |
| Metrics.MethodMetrics.Observe | internal/core/metrics/metrics.go:49-66 | counts one sample and one failure, in the right bucket and in the sum; negative durations are zero |
| Metrics.MethodMetrics.Snapshot | internal/core/metrics/metrics.go:111-151 | at rest: count, errors, average and quantiles are those of the samples, the quantiles are ordered, and the maximum is the bound of the bucket of the largest sample |

## Left out

- etcd registry, token bucket, plain round robin and random selection, option functions, HTTP statistics, console, benchmarks and generated code: outside the transport, or easy members only.
- gzip, encoding/json and protobuf: given functions; compressing may fail, decompressing is taken to undo it where it does not (`Messages.Faithful`), and marshalling a header is taken not to fail.
- String interning and sync.Pool reuse: interning is identity on contents, pooled buffers are fresh and empty.
- Capacity and aliasing of Go slices under append: sequences are values; only the packet buffer is an array, and its growth is any larger capacity.
- Real sockets and clocks: a socket read delivers at most 4096 bytes or reports an error, with bytes or without; the clock is an integer.
- Floating point: the breaker's threshold is real and bucket bounds are exact milliseconds; only the sample a quantile asks for is computed with the rounding of float64.
- Counters of the metrics do not wrap at 2^64, except the summed latency; the map from methods to counters and snapshots taken while calls are observed are not modelled.
- Codec lookup of the client, deadlines, limiter and metrics of `InvokeAsync`: only its use of the breaker is modelled; for a batch, one admission and one outcome for each request.
- The semaphore of the request loop and the writes of its goroutines: a dispatched request leaves the loop; its response goes through the group-commit writer. Once a goroutine runs, the loop finds any number as the average (its bounds: `Servers.RacingBounds`).
- Futures' codec and waiting on the channel are not modelled; closing it is.
- Multiplex.DistinctIds: up to 2^64 requests, after which ids repeat; the same bound is on every result about runs that needs distinct ids.
- Clients.TCPClient.SendAsyncBatch: one call at a time; the interleavings are those of Multiplex.
- EndToEnd.AnyChunking: for lengths below 2^32, as behind a packet whose lengths were cut the stream is out of step.
- WireOrder.Integrity: while no flush has failed; after a failed flush the leader goes on with later batches behind a cut payload.
- Receiver.Connection.ReadAll: up to the error; packets completed by bytes that come along with it are dropped, as in the source.
- Servers.RequestLoop.Handle: service and method names of the requests are shorter than 2^62 bytes.
- Servers.ClientReads: for a client of a run without goroutines, with headers and bodies of the responses below 2^32 bytes.
- FullCircle.HandleToBad: for calls below 50008 ns and less than 65536 bytes of responses; without these `Servers.LeftExactly` says when responses are left.
- Messages.JsonRoundTrip: what the standard library makes of a header that was cut is not modelled.
- Metrics.MethodMetrics.Observe: a duration below 2^64 microseconds.
