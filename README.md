# loop3 protocol engine, modelled in Dafny

This project models the protocol engine of the loop3 traffic test in the Ziti fabric test
tool (`ziti-fabric-test/subcmd/loop3/protocol.go`). Two engines face each other over one
connection. Each engine sends generated blocks, receives the peer's blocks and verifies them.

- **Framing.** Every message on the connection is a frame: the magic header
  `CA FE F0 0D`, the payload length as four little-endian bytes, then the payload.
- **Transmit loop (`txer`).**
  - It takes blocks from the generator.
  - A Plain block picks up a pending latency timestamp and becomes a LatencyResponse.
  - It waits for the pacing slot (`txPacing` plus random jitter), then sends the block.
- **Receive loop (`rxer`).**
  - It reads blocks and offers each LatencyRequest's timestamp to a queue of capacity 1024.
  - It counts the blocks and hands them to the verifier.
- **Verifier.**
  - It expects sequence numbers 0, 1, 2, … and re-hashes every payload.
  - The first mismatch pushes one error, closes the connection and ends the verifier.
- **`run`** receives the first error the loops pushed from the error queue and returns it.

Files:

- `types.dfy`: machine integers, `Option`, `Result` and the error values.
- `blocks.dfy`: the block and test descriptor records, and the message codec (`Codec`).
  The codec stands for protobuf marshalling and SHA-512.
- `framing.dfy`: the framing helpers.
  - They are functions over a `Peer` value. Reads consume its `inbound` stream; writes append to its `sent` stream.
  - A transport that takes fewer bytes than offered gives a short write.
- `rules.dfy`: one rule per step.
  - The latency echo, the pacing schedule and the bounded latency queue.
  - The verifier's check (`CheckBlock`, and `Verify` over a queue).
  - The choice of the run's result.
- `engine.dfy`: the engine's state as a value (`State`).
  - One loop body is a function (`TxSend`, `RxReceive`, `VerifyNext`).
  - A run of at most `n` passes of a loop is also a function (`TxRun`, `RxRun`, `VerifyRun`).
  - The lemmas state what the runs guarantee, up to the end-to-end round trip between two engines.
- `protocol.dfy`: `Loop3.Protocol`, a class with the fields of the Go `protocol` struct.
  - Its methods are the source's loops, written imperatively over those fields.
  - Each method is proved to leave the object in exactly the state the matching `Engine` function computes.
  - So every lemma about the runs holds of the methods.

Channels become sequences:

- `txBlocks` is what the generator queued.
- `rxBlocks` is the receive loop's queue to the verifier.
- `latencies` and `errors` are the two buffered channels.

The clock and the random source are parameters: functions of the loop's counter.

The verifier's idle-timeout branch (protocol.go:215-225) only logs and returns: the error
push and the peer close are commented out (lines 219 and 221-224). The model follows the
code. A timed-out verifier pushes nothing and keeps the connection open.

## Model

| member | source | states |
|---|---|---|
| Framing.Close | ziti-fabric-test/subcmd/loop3/protocol.go:193-195 | closing the peer marks it closed and leaves both streams and the transport's room as they were |
| Framing.Int32LE | ziti-fabric-test/subcmd/loop3/protocol.go:359-365 | the four bytes read as a signed 32-bit length: in range, non-negative exactly when the unsigned value is below 2^31, and equal to it modulo 2^32 |
| Framing.PutUint32LE | ziti-fabric-test/subcmd/loop3/protocol.go:328 | the length goes out as exactly four bytes; the two lemmas below show they are its little-endian encoding, the inverse of reading them back |
| Framing.Uint32LEPutUint32LE | ziti-fabric-test/subcmd/loop3/protocol.go:328 | decoding the little-endian encoding of a uint32 gives the value back |
| Framing.PutUint32LEUint32LE | ziti-fabric-test/subcmd/loop3/protocol.go:359-361 | encoding the value of four little-endian bytes gives the bytes back |
| Framing.ReadFull | ziti-fabric-test/subcmd/loop3/protocol.go:352-358 | a read of n bytes succeeds exactly when n is 0 (which returns nothing without touching the connection, even a closed one) or the peer is open and n bytes remain, and returns and consumes exactly those; otherwise Closed, EOF when nothing was left, or UnexpectedEOF |
| Framing.Accepted | ziti-fabric-test/subcmd/loop3/protocol.go:316 | the transport takes at most what is offered and what it has room for, and all of it exactly when open with room (or nothing was offered) |
| Framing.Write | ziti-fabric-test/subcmd/loop3/protocol.go:275-278 | a write appends the accepted prefix and reports its length, or Closed on a closed peer |
| Framing.Frame | ziti-fabric-test/subcmd/loop3/protocol.go:263-283 | a frame is 8 + len bytes: the magic header, uint32(len) little-endian, then the payload |
| Framing.TxMagicHeader | ziti-fabric-test/subcmd/loop3/protocol.go:315-324 | the output is the accepted part of the magic header; the error is Closed, or a short write when fewer than 4 bytes went out |
| Framing.TxLength | ziti-fabric-test/subcmd/loop3/protocol.go:326-337 | the output is the accepted part of uint32(length) little-endian, the length taken modulo 2^32; a short write is an error |
| Framing.TxHeader | ziti-fabric-test/subcmd/loop3/protocol.go:339-348 | the output is the accepted part of magic header plus length; the error names the first part that did not go out whole |
| Framing.TxPb | ziti-fabric-test/subcmd/loop3/protocol.go:263-283 | the output is the accepted part of Frame(data); success exactly when the whole frame went out; otherwise the error names the first short part (header, length, data) |
| Framing.TxPbWritesFrame | ziti-fabric-test/subcmd/loop3/protocol.go:263-283 | txPb, composed of its three writes, equals the one-step frame write |
| Framing.WriteFrameOk | ziti-fabric-test/subcmd/loop3/protocol.go:263-283 | a frame write succeeds exactly when the peer is open with room for 8 + len bytes, and then appends the whole frame; it never touches the inbound stream |
| Framing.RxMagicHeader | ziti-fabric-test/subcmd/loop3/protocol.go:368-381 | consumes exactly 4 bytes when 4 remain; fails with a bad header when they differ from the magic, with EOF or UnexpectedEOF when fewer remain, with Closed on a closed peer |
| Framing.RxLength | ziti-fabric-test/subcmd/loop3/protocol.go:350-366 | consumes 4 bytes and returns them as a signed little-endian int32, or the read error |
| Framing.RxHeader | ziti-fabric-test/subcmd/loop3/protocol.go:383-388 | succeeds exactly when 8 bytes remain and start with the magic; returns the signed length and consumes the 8 bytes |
| Framing.RxMsgBody | ziti-fabric-test/subcmd/loop3/protocol.go:390-397 | returns and consumes exactly `length` bytes when the peer is open and they remain, and an empty body for length 0 even on a closed peer; a negative length is refused without reading |
| Framing.Unmarshal | ziti-fabric-test/subcmd/loop3/protocol.go:309-311 | a payload the codec cannot decode is an error; otherwise the decoded message |
| Framing.RxPb | ziti-fabric-test/subcmd/loop3/protocol.go:285-313 | whatever rxPb accepts was a whole frame at the head of the stream (magic, non-negative length, payload that decodes to the result), and the stream continues right after it |
| Framing.RxPbReadsFrame | ziti-fabric-test/subcmd/loop3/protocol.go:285-313 | rxPb, composed of its three reads, equals the one-step frame reader, error cases included |
| Framing.ReadFrameConsumes | ziti-fabric-test/subcmd/loop3/protocol.go:285-313 | a read never grows the stream, and a successful one consumes at least the 8-byte header |
| Framing.RxPbFrame | ziti-fabric-test/subcmd/loop3/protocol.go:285-313 | round trip: on a stream that begins with Frame(data), for len < 2^31, rxPb decodes exactly `data` and leaves exactly the rest of the stream |
| Framing.FrameMagic | ziti-fabric-test/subcmd/loop3/protocol.go:368-381 | on an open peer, the first read of a frame accepts its magic header and leaves exactly the rest of the frame |
| Framing.FrameLength | ziti-fabric-test/subcmd/loop3/protocol.go:350-366 | the second read of a frame gives back its length as a signed int32 (len, or len - 2^32 from 2^31 on) and leaves exactly the payload and what follows |
| Framing.RxPbLongFrame | ziti-fabric-test/subcmd/loop3/protocol.go:350-366 | a frame of 2^31 bytes or more is refused, its length read back as len - 2^32 |
| Rules.Echo | ziti-fabric-test/subcmd/loop3/protocol.go:102-113 | a Plain block with a timestamp pending becomes a LatencyResponse carrying the oldest one, which is consumed; any other block, or a Plain block with nothing pending, is unchanged and consumes nothing; sequence, payload and hash are never altered |
| Rules.EchoAllFidelity | ziti-fabric-test/subcmd/loop3/protocol.go:102-113 | over a stream: every block is unchanged or converted, none changes its verified fields, the echoed timestamps are a prefix of the pending queue in order, and their number is min(#Plain blocks, #pending) |
| Rules.EchoKeepsVerdict | ziti-fabric-test/subcmd/loop3/protocol.go:102-113 | echoing a stream never changes the verifier's verdict on it |
| Rules.Jitter | ziti-fabric-test/subcmd/loop3/protocol.go:116-119 | 0 <= jitter < txMaxJitter when txMaxJitter > 0, else 0 |
| Rules.Pace | ziti-fabric-test/subcmd/loop3/protocol.go:115-129 | with pacing on, the new lastSend is max(lastSend + txPacing + jitter, now) and the sleep is its distance from now, positive exactly when nextSend is after now; with pacing off lastSend is untouched and nothing sleeps |
| Rules.PacedSends | ziti-fabric-test/subcmd/loop3/protocol.go:115-129 | over consecutive sends: none precedes its clock reading, the k-th is at least k * txPacing after the first, and none is later than the later of its clock reading and the previous send plus txPacing plus the largest jitter |
| Rules.OfferLatency | ziti-fabric-test/subcmd/loop3/protocol.go:162-168 | a LatencyRequest's timestamp is appended when fewer than 1024 are pending and dropped otherwise; other block types enqueue nothing; the queue never passes 1024 |
| Rules.Next | ziti-fabric-test/subcmd/loop3/protocol.go:199 | `rxSequence++` on a uint32: one more, and 2^32 - 1 wraps around to 0 |
| Rules.CheckBlock | ziti-fabric-test/subcmd/loop3/protocol.go:188-209 | a block passes exactly when its sequence is the expected one and its payload hashes to its hash; a wrong sequence is a sequence mismatch whatever the hash, and the hash is compared only when the sequence matches |
| Rules.Verify | ziti-fabric-test/subcmd/loop3/protocol.go:184-213 | the verifier accepts a prefix of the queue: all of it when nothing failed, and a proper prefix when something did |
| Rules.VerifyAccepted | ziti-fabric-test/subcmd/loop3/protocol.go:188-199 | the accepted blocks carry expected, expected+1, … (mod 2^32) and intact hashes; the counter ends at expected + #accepted; a failure is the check's error on the first block not accepted |
| Rules.VerifyAcceptsConsecutive | ziti-fabric-test/subcmd/loop3/protocol.go:188-199 | conversely, a queue of consecutive, intact blocks is accepted whole and the counter advances by its length |
| Rules.VerifyFromZero | ziti-fabric-test/subcmd/loop3/protocol.go:188-199 | from a counter of 0, the N accepted blocks carry exactly the sequence numbers 0, …, N-1 in order |
| Rules.VerifyStopsAtFailure | ziti-fabric-test/subcmd/loop3/protocol.go:188-209 | no block after the failing one is examined: replacing everything after it leaves the verdict unchanged |
| Rules.FirstError | ziti-fabric-test/subcmd/loop3/protocol.go:81-86 | run reports no error exactly when none was queued, and otherwise the first one queued |
| Engine.Initial | ziti-fabric-test/subcmd/loop3/protocol.go:51-62 | a new engine has counter 0, both counts 0, every queue empty and the latency queue within capacity |
| Engine.Started | ziti-fabric-test/subcmd/loop3/protocol.go:65-67 | run's first lines set the test, queue the generated blocks and give the transmit loop a zero lastSend, and change nothing else |
| Engine.TxSend | ziti-fabric-test/subcmd/loop3/protocol.go:99-137 | one pass of the transmit loop consumes exactly one generated block and sends it; it either counts the send or pushes an error, and the loop is over exactly when an error was pushed (or it was already over) |
| Engine.TxRun | ziti-fabric-test/subcmd/loop3/protocol.go:97-143 | the transmit loop only drains the generator's queue, and given more passes than queued blocks it returns |
| Engine.TxRunEcho | ziti-fabric-test/subcmd/loop3/protocol.go:97-113 | the transmit loop consumes a prefix of the generated blocks, and what it sends is that prefix after the latency echo, using up exactly the timestamps the echo consumed |
| Engine.TxRunErrors | ziti-fabric-test/subcmd/loop3/protocol.go:131-137 | the transmit loop pushes at most one error, only as the pass that ends it, and nothing once it has returned |
| Engine.TxRunCounts | ziti-fabric-test/subcmd/loop3/protocol.go:97-137 | every block sent was counted except one whose send failed, and the count does not pass txRequests |
| Engine.TxRunKeeps | ziti-fabric-test/subcmd/loop3/protocol.go:89-146 | the transmit loop leaves the test, the verifier's counter and queue, the receive counters and the inbound stream alone |
| Engine.TxRunWire | ziti-fabric-test/subcmd/loop3/protocol.go:131-137 | when no send fails, the bytes the transmit loop wrote are exactly the frames of the blocks it sent, in order |
| Engine.RxReceive | ziti-fabric-test/subcmd/loop3/protocol.go:155-172 | one pass of the receive loop either counts a block or pushes an error, and the loop is over exactly when an error was pushed (or it was already over) |
| Engine.RxRunQueues | ziti-fabric-test/subcmd/loop3/protocol.go:170-172 | the receive loop only appends to the verifier's queue, counting one per block |
| Rules.OfferAll | ziti-fabric-test/subcmd/loop3/protocol.go:162-168 | offering blocks one by one appends the LatencyRequest timestamps in arrival order while fewer than 1024 are pending and drops every later one |
| Engine.RxRunLatencies | ziti-fabric-test/subcmd/loop3/protocol.go:154-173 | over the whole receive loop the verifier's queue only grows, and the latency queue ends as the starting one with every block the loop queued for the verifier offered in order |
| Engine.RxRunErrors | ziti-fabric-test/subcmd/loop3/protocol.go:154-160 | the receive loop pushes at most one error, then returns without closing the verifier's queue |
| Engine.RxRunBounded | ziti-fabric-test/subcmd/loop3/protocol.go:162-175 | the verifier's queue is closed only once rxRequests blocks were counted, and the latency queue stays within capacity |
| Engine.RxRunKeeps | ziti-fabric-test/subcmd/loop3/protocol.go:148-177 | the receive loop leaves the test, the transmit side, the verifier's counter and the outbound stream alone |
| Engine.RxRunFinishes | ziti-fabric-test/subcmd/loop3/protocol.go:154-176 | given more passes than bytes left to read, the receive loop returns |
| Engine.RxRunReadsFrames | ziti-fabric-test/subcmd/loop3/protocol.go:154-173 | a stream of frames of decodable blocks is read back as exactly those blocks, queued in order and counted, with no error and the rest of the stream left |
| Engine.VerifyNext | ziti-fabric-test/subcmd/loop3/protocol.go:186-209 | one pass of the verifier consumes the head of its queue; a block that passes advances the counter (mod 2^32) and leaves the connection alone; a failure pushes exactly one error, closes the connection and ends the verifier |
| Engine.VerifyRun | ziti-fabric-test/subcmd/loop3/protocol.go:184-227 | the verifier only drains its queue, and given more passes than queued blocks it returns once the queue is closed or the idle timeout fires |
| Engine.VerifyRunIsVerify | ziti-fabric-test/subcmd/loop3/protocol.go:179-213 | the verifier loop does what Verify says: it advances the counter once per accepted block, and on the first failure pushes that one error, closes the connection, stops and leaves the later blocks unexamined |
| Engine.VerifyAll | ziti-fabric-test/subcmd/loop3/protocol.go:184-213 | a queue Verify accepts whole is drained with no error and the connection untouched |
| Engine.VerifyRunKeeps | ziti-fabric-test/subcmd/loop3/protocol.go:179-228 | the verifier changes only its counter, its queue, the error queue, the connection (which it can only close) and its own done flag, and pushes at most one error |
| Engine.EndToEnd | ziti-fabric-test/subcmd/loop3/protocol.go:89-228 | one engine sends generated blocks that are consecutive from the peer's counter and intact, and no send fails; then the peer reads back exactly the blocks sent, and its verifier accepts all of them, converted ones included, with no error and its counter advanced by their number |
| Engine.RxPhase | ziti-fabric-test/subcmd/loop3/protocol.go:148-177 | the receive loop `run` starts returns, keeps the test, and adds at most one error behind those already queued |
| Engine.VerifyPhase | ziti-fabric-test/subcmd/loop3/protocol.go:71-73 | the verifier `run` starts when rxRequests > 0 keeps the test and the receive loop's flag and adds at most one error; with rxRequests <= 0 nothing changes |
| Engine.TxPhase | ziti-fabric-test/subcmd/loop3/protocol.go:89-146 | the transmit loop `run` starts returns, keeps the test and the receive loop's flag, and adds at most one error |
| Engine.Ran | ziti-fabric-test/subcmd/loop3/protocol.go:64-87 | after run, both loops it waits for (rxerDone, txerDone) have returned, the test is the one it set, and at most three errors, one per loop, were added behind those already queued |
| Engine.TakeError | ziti-fabric-test/subcmd/loop3/protocol.go:81-84 | receiving the first error takes exactly the head off the error queue, and nothing when it is empty; nothing else changes |
| Loop3.Protocol.constructor | ziti-fabric-test/subcmd/loop3/protocol.go:51-62 | the new object is the initial engine state |
| Loop3.Protocol.Start | ziti-fabric-test/subcmd/loop3/protocol.go:65-67 | run's first lines: the test is set and the generator's blocks are queued |
| Loop3.Protocol.TxPbOn | ziti-fabric-test/subcmd/loop3/protocol.go:263-283 | txPb on the object's connection: only the connection changes, as TxPb says, and the error is txPb's |
| Loop3.Protocol.RxPbOn | ziti-fabric-test/subcmd/loop3/protocol.go:285-313 | rxPb on the object's connection: only the connection changes, as RxPb says, and the result is rxPb's |
| Loop3.Protocol.TxTest | ziti-fabric-test/subcmd/loop3/protocol.go:230-236 | sends the test descriptor as one frame, with txPb's errors |
| Loop3.Protocol.RxTest | ziti-fabric-test/subcmd/loop3/protocol.go:238-245 | reads a test descriptor from one frame, with rxPb's errors |
| Loop3.Protocol.RxBlock | ziti-fabric-test/subcmd/loop3/protocol.go:247-253 | reads a block from one frame, with rxPb's errors |
| Loop3.Protocol.TxTake | ziti-fabric-test/subcmd/loop3/protocol.go:102-113 | takes the next generated block and applies the latency echo to it and the pending queue |
| Loop3.Protocol.TxPace | ziti-fabric-test/subcmd/loop3/protocol.go:115-129 | updates lastSend as the pacing rule says and changes nothing else |
| Loop3.Protocol.TxSendBlock | ziti-fabric-test/subcmd/loop3/protocol.go:131-137 | sends the block's frame, then counts it, or pushes the send's error and stops |
| Loop3.Protocol.TxRecord | ziti-fabric-test/subcmd/loop3/protocol.go:131-137 | after a send, counts it, or pushes its error and ends the loop, and changes nothing else |
| Loop3.Protocol.TxNext | ziti-fabric-test/subcmd/loop3/protocol.go:99-137 | one pass of the transmit loop is exactly the engine's transmit step |
| Loop3.Protocol.Txer | ziti-fabric-test/subcmd/loop3/protocol.go:89-146 | the transmit loop leaves the object in the state of the engine's transmit run, so the Engine.TxRun lemmas hold of it |
| Loop3.Protocol.RxAccept | ziti-fabric-test/subcmd/loop3/protocol.go:162-172 | offers a LatencyRequest's timestamp to the latency queue, counts the block, notes the time and queues the block |
| Loop3.Protocol.RxNext | ziti-fabric-test/subcmd/loop3/protocol.go:155-172 | one pass of the receive loop is exactly the engine's receive step, and consumes a frame header or stops the loop |
| Loop3.Protocol.RxStep | ziti-fabric-test/subcmd/loop3/protocol.go:155-172 | a pass of rxer's loop, as a step of Rxer's proof: it moves the object one iteration along the engine's receive run and keeps the bound on the passes left |
| Loop3.Protocol.Rxer | ziti-fabric-test/subcmd/loop3/protocol.go:148-177 | the receive loop leaves the object in the state of the engine's receive run, so the Engine.RxRun lemmas hold of it |
| Loop3.Protocol.VerifyBlock | ziti-fabric-test/subcmd/loop3/protocol.go:186-209 | one pass of the verifier is exactly the engine's verify step |
| Loop3.Protocol.Verifier | ziti-fabric-test/subcmd/loop3/protocol.go:179-228 | the verifier leaves the object in the state of the engine's verify run, so VerifyRunIsVerify holds of it |
| Loop3.Protocol.RunLoops | ziti-fabric-test/subcmd/loop3/protocol.go:64-79 | run up to the wait for both loops leaves the object in exactly the engine's run state Engine.Ran |
| Loop3.Protocol.ReceiveError | ziti-fabric-test/subcmd/loop3/protocol.go:81-84 | receives the head of the error queue when there is one: returns it, and what is left is the queue without it |
| Loop3.Protocol.Run | ziti-fabric-test/subcmd/loop3/protocol.go:64-87 | run leaves the object in the engine's run state Engine.Ran with the first queued error received off the queue, and returns that error: the returned error followed by the remaining queue is exactly the queue the loops left |

## Left out

- Goroutines, channels, `select` and the done channels: the three loops run one after the
  other, in the order `run` starts them (receive loop, verifier, transmit loop). Every
  interleaving the scheduler could choose is not modelled. `run` waits on two done channels,
  `rxerDone` and `txerDone`; they are the `rxDone` and `txDone` flags. The verifier signals
  nothing when it returns; `verifierDone` is the model's own record that it has.
- Loop3.Protocol.Run: returns the first queued error after one fixed schedule. It does not
  model waiting for the two done channels under other schedules.
- The verifier's queue is unbounded here, while Go's `rxBlocks` channel is unbuffered. So the
  model does not capture that the receive loop blocks on its next send once the verifier has
  returned (after a mismatch or the idle timeout), which leaves `run` waiting for it.
- The generator (`newGenerator`, its goroutine and its block contents) is not part of this
  model: its output is the `generated` parameter, and a closed generator channel is the end of `txBlocks`.
- `Block.Tx`, `Block.Rx` and the protobuf messages are not part of this model. A block
  goes out as `txPb` of `Codec.encode` and comes back as `rxPb` with `Codec.decode`.
  Marshalling errors are not modelled: blocks model marshalled messages.
- `rxResult` is not modelled: nothing in the engine calls it.
- `sha512.Sum512` with the hex comparison is `Codec.hash` compared by equality.
- Real time, `time.Sleep` and `math/rand`: time readings and random draws are parameters,
  indexed by the loop's counter; the sleep is computed (`Pace`) but not performed.
- The verifier's idle timeout only logs and returns; its firing is the `timedOut` parameter.
- The error channel's capacity of 10240 is not modelled: at most three errors are ever
  queued (Engine.Ran), so it never fills.
- `atomic` operations are plain updates under the sequential model; `txCount` and `rxCount`
  are unbounded naturals, not int32 (they never exceed the int32 request counts).
- Logging, and the `recover`/re-`panic` in rxPb: a negative length, which makes `make` panic in
  Go, is the error `LengthOutOfRange`.
- The `n != len` checks after `io.ReadFull` are not modelled as separate branches:
  `io.ReadFull` returns an error whenever it reads fewer bytes.
- The `n != len` checks after each `Write` (protocol.go:279, 320 and 333) are defensive: an
  `io.Writer` that writes fewer bytes than offered must return an error. The model has no
  transport errors on an open connection; a short write, driven by the peer's `room`, stands
  for that case and is reported as the source's short-write error.
- Each loop runs at most one pass more than its input can feed: more generated blocks for the
  transmit loop, more inbound bytes for the receive loop, more queued blocks for the
  verifier. Engine.TxRun, Engine.RxRunFinishes and Engine.VerifyRun show that the loops return within that bound.
- A remote side that keeps its end open without sending is not modelled. `Framing.Peer`'s
  `inbound` is everything the remote will send, followed by its close, so a read past it meets
  end of file at once. In Go, `io.ReadFull` in rxPb, called from the receive loop
  (protocol.go:155), would block there, and `run` would wait at `<-rxerDone` (protocol.go:78)
  forever. Engine.RxRunFinishes and the `rxDone` of Engine.Ran rely on the stream ending.
- The transmit loop drains the latency queue while blocks arrive in Go. Here it runs after the
  receive loop, so Rules.OfferAll and Engine.RxRunLatencies describe a queue that nothing takes
  from during the receive loop; under another schedule fewer timestamps would be dropped.
- Rules.PacedSends: the pacing laws are proved about the schedule `SendTimes` built from
  `Pace`; they are not restated over the `lastSend` values of a whole `Engine.TxRun`, whose
  passes each apply `Pace` once.
