/**
 * The `protocol` object of loop3 and its loops as imperative code over its fields. Each
 * loop is proved to leave the object in the state the matching run function of `Engine`
 * computes, so every guarantee proved there about the runs holds of these methods.
 *
 * The goroutines become methods that run one after the other; the channels become
 * sequences: `txBlocks` is what the generator has queued, `rxBlocks` what the receive
 * loop hands to the verifier, `latencies` and `errors` the two buffered channels.
 * Marshal/Unmarshal and SHA-512 are the `Codec` argument, the clock and the random
 * source are functions of the loop's counter.
 */
module Loop3 {
  import opened Types
  import opened Blocks
  import opened Framing
  import opened Rules
  import opened Engine

  class Protocol {
    var test: Test
    var rxSequence: uint32
    var peer: Peer
    /** What the generator has queued and the transmit loop has not taken yet. */
    var txBlocks: seq<Block>
    /** The blocks the transmit loop handed to the connection, after the latency echo. */
    ghost var txLog: seq<Block>
    /** The transmit loop's `lastSend`, in Unix milliseconds. */
    var lastSend: int
    var txCount: nat
    var rxCount: nat
    /** Unix milliseconds of the last block received. */
    var lastRx: int
    var rxBlocks: seq<Block>
    var rxBlocksClosed: bool
    var latencies: seq<int>
    var errors: seq<Error>
    /** The done signals of the three loops. */
    var txDone: bool
    var rxDone: bool
    var verifierDone: bool

    /** The fields as an `Engine.State` value. */
    ghost function Snapshot(): State
      reads this
    {
      State(test, rxSequence, peer, txBlocks, txLog, lastSend, txCount, txDone, rxCount, lastRx,
            rxBlocks, rxBlocksClosed, rxDone, verifierDone, latencies, errors)
    }

    /** newProtocol. */
    constructor (peer: Peer)
      ensures Snapshot() == Initial(peer)
    {
      this.test := NO_TEST;
      this.rxSequence := 0;
      this.peer := peer;
      this.txBlocks := [];
      this.txLog := [];
      this.lastSend := ZERO_TIME_MS;
      this.txCount := 0;
      this.rxCount := 0;
      this.lastRx := 0;
      this.rxBlocks := [];
      this.rxBlocksClosed := false;
      this.latencies := [];
      this.errors := [];
      this.txDone := false;
      this.rxDone := false;
      this.verifierDone := false;
    }

    /** The first lines of `run`: set the test and queue the generator's output. */
    method Start(t: Test, generated: seq<Block>)
      modifies this
      ensures Snapshot() == Started(old(Snapshot()), t, generated)
    {
      test := t;
      txBlocks := generated;
      lastSend := ZERO_TIME_MS;
    }

    /** txPb on the connection. */
    method TxPbOn(data: seq<byte>) returns (err: Option<Error>)
      modifies this
      ensures var w := TxPb(old(peer), data);
        && Snapshot() == old(Snapshot()).(peer := w.peer)
        && err == (if w.result.Ok? then None else Some(w.result.error))
    {
      var w := TxPb(peer, data);
      peer := w.peer;
      err := if w.result.Ok? then None else Some(w.result.error);
    }

    /** rxPb on the connection. */
    method RxPbOn<T>(unmarshal: seq<byte> -> Option<T>) returns (r: Result<T>)
      modifies this
      ensures var w := RxPb(old(peer), unmarshal);
        Snapshot() == old(Snapshot()).(peer := w.peer) && r == w.result
    {
      var w := RxPb(peer, unmarshal);
      peer := w.peer;
      r := w.result;
    }

    /** txTest: send a test descriptor as one frame. */
    method TxTest(t: Test, codec: Codec) returns (err: Option<Error>)
      modifies this
      ensures var w := TxPb(old(peer), codec.encodeTest(t));
        && Snapshot() == old(Snapshot()).(peer := w.peer)
        && err == (if w.result.Ok? then None else Some(w.result.error))
    {
      err := TxPbOn(codec.encodeTest(t));
    }

    /** rxTest: read a test descriptor from one frame. */
    method RxTest(codec: Codec) returns (r: Result<Test>)
      modifies this
      ensures var w := RxPb(old(peer), codec.decodeTest);
        Snapshot() == old(Snapshot()).(peer := w.peer) && r == w.result
    {
      r := RxPbOn(codec.decodeTest);
    }

    /** rxBlock: read a block from one frame. */
    method RxBlock(codec: Codec) returns (r: Result<Block>)
      modifies this
      ensures var w := RxPb(old(peer), codec.decode);
        Snapshot() == old(Snapshot()).(peer := w.peer) && r == w.result
    {
      r := RxPbOn(codec.decode);
    }

    /**
     * The latency echo on the next generated block: a Plain block takes the oldest pending
     * timestamp, if there is one, and becomes a LatencyResponse.
     */
    method TxTake() returns (block: Block)
      requires txBlocks != []
      modifies this
      ensures var e := Echo(old(txBlocks)[0], old(latencies));
        block == e.block && Snapshot() == old(Snapshot()).(txBlocks := old(txBlocks)[1..], latencies := e.pending)
    {
      block := txBlocks[0];
      txBlocks := txBlocks[1..];
      if block.blockType == Plain && latencies != [] {
        block := block.(blockType := LatencyResponse, timestamp := latencies[0]);
        latencies := latencies[1..];
      }
    }

    /** The pacing: with txPacing set, the next send is due txPacing plus jitter after the last. */
    method TxPace(now: int, draw: nat)
      modifies this
      ensures Snapshot() == old(Snapshot()).(lastSend := Pace(old(lastSend), now, test.txPacing, Jitter(test.txMaxJitter, draw)).lastSend)
    {
      if test.txPacing > 0 {
        var jitter := 0;
        if test.txMaxJitter > 0 {
          jitter := draw % test.txMaxJitter;
        }
        var nextSend := lastSend + test.txPacing + jitter;
        if nextSend > now {
          lastSend := nextSend;
        } else {
          lastSend := now;
        }
      }
    }

    /** The send: txPb of the block's encoding, then count it, or push the error and stop. */
    method TxSendBlock(block: Block, encode: Block -> seq<byte>)
      modifies this
      ensures var w := WriteFrame(old(peer), encode(block));
        Snapshot() == old(Snapshot()).(peer := w.peer, txLog := old(txLog) + [block],
                                      txCount := if w.result.Ok? then old(txCount) + 1 else old(txCount),
                                      errors := if w.result.Ok? then old(errors) else old(errors) + [w.result.error],
                                      txDone := old(txDone) || w.result.Err?)
    {
      txLog := txLog + [block];
      ghost var p := peer;
      var err := TxPbOn(encode(block));
      TxPbWritesFrame(p, encode(block));
      TxRecord(err);
    }

    /** After a send: count the block, or push the send's error and stop. */
    method TxRecord(err: Option<Error>)
      modifies this
      ensures Snapshot() == old(Snapshot()).(txCount := if err.None? then old(txCount) + 1 else old(txCount),
                                            errors := if err.None? then old(errors) else old(errors) + [err.value],
                                            txDone := old(txDone) || err.Some?)
    {
      if err == None {
        txCount := txCount + 1;
      } else {
        errors := errors + [err.value];
        txDone := true;
      }
    }

    /** One pass of the transmit loop's body: the echo, the pacing and the send. */
    method TxNext(codec: Codec, now: int, draw: nat)
      requires txBlocks != []
      modifies this
      ensures Snapshot() == TxSend(old(Snapshot()), codec.encode, now, draw)
    {
      var block := TxTake();
      TxPace(now, draw);
      TxSendBlock(block, codec.encode);
    }

    /**
     * txer: send generated blocks until txRequests have gone out, the generator's queue
     * is empty, or a send fails.
     */
    method Txer(codec: Codec, clock: nat -> int, draws: nat -> nat)
      modifies this
      ensures Snapshot() == TxRun(old(Snapshot()).(lastSend := ZERO_TIME_MS), |old(txBlocks)| + 1,
                                  codec.encode, clock, draws)
    {
      lastSend := ZERO_TIME_MS;
      ghost var start := Snapshot();
      ghost var n: nat := |txBlocks| + 1;
      while !txDone && txCount < test.txRequests && txBlocks != []
        invariant n == |txBlocks| + 1
        invariant TxRun(Snapshot(), n, codec.encode, clock, draws) == TxRun(start, |start.txBlocks| + 1, codec.encode, clock, draws)
        decreases |txBlocks|
      {
        ghost var s := Snapshot();
        TxRunNext(s, n, codec.encode, clock, draws);
        TxNext(codec, clock(txCount), draws(txCount));
        n := n - 1;
      }
      ghost var s := Snapshot();
      TxRunStop(s, n, codec.encode, clock, draws);
      txDone := true;
    }

    /**
     * A block received: a LatencyRequest's timestamp goes to the latency queue if it has
     * room, then the block is counted, timed and queued for the verifier.
     */
    method RxAccept(block: Block, now: int)
      modifies this
      ensures Snapshot() == old(Snapshot()).(latencies := OfferLatency(old(latencies), block), rxCount := old(rxCount) + 1,
                                            lastRx := now, rxBlocks := old(rxBlocks) + [block])
    {
      if block.blockType == LatencyRequest && |latencies| < LATENCY_CAPACITY {
        latencies := latencies + [block.timestamp];
      }
      rxCount := rxCount + 1;
      lastRx := now;
      rxBlocks := rxBlocks + [block];
    }

    /** One pass of the receive loop's body: read a block, or push the error and stop. */
    method RxNext(codec: Codec, now: int)
      modifies this
      ensures Snapshot() == RxReceive(old(Snapshot()), codec.decode, now)
      ensures |peer.inbound| <= |old(peer.inbound)|
      ensures rxDone || |peer.inbound| + 8 <= |old(peer.inbound)|
    {
      ghost var p := peer;
      var r := RxBlock(codec);
      RxPbReadsFrame(p, codec.decode);
      ReadFrameConsumes(p, codec.decode);
      if r.Err? {
        errors := errors + [r.error];
        rxDone := true;
      } else {
        RxAccept(r.value, now);
      }
    }

    /**
     * One pass of rxer's loop body (RxNext), stated as a proof step of Rxer: the pass moves
     * the object one iteration along the receive run towards `goal`.
     */
    method RxStep(codec: Codec, clock: nat -> int, ghost m: nat, ghost goal: State)
      requires !RxStops(Snapshot()) && RxRun(Snapshot(), m + 1, codec.decode, clock) == goal
      requires m >= |peer.inbound|
      modifies this
      ensures RxRun(Snapshot(), m, codec.decode, clock) == goal
      ensures rxDone || m > |peer.inbound|
    {
      ghost var s := Snapshot();
      RxRunNext(s, m + 1, codec.decode, clock);
      RxNext(codec, clock(rxCount));
    }

    /**
     * rxer: receive blocks until rxRequests have arrived, then close the verifier's queue;
     * return at once, leaving the queue open, when a read fails.
     */
    method Rxer(codec: Codec, clock: nat -> int)
      modifies this
      ensures Snapshot() == RxRun(old(Snapshot()), |old(peer.inbound)| + 1, codec.decode, clock)
    {
      ghost var goal := RxRun(Snapshot(), |peer.inbound| + 1, codec.decode, clock);
      ghost var n: nat := |peer.inbound| + 1;
      while !rxDone && rxCount < test.rxRequests
        invariant rxDone || n > |peer.inbound|
        invariant RxRun(Snapshot(), n, codec.decode, clock) == goal
        decreases n
      {
        n := n - 1;
        RxStep(codec, clock, n, goal);
      }
      ghost var s := Snapshot();
      RxRunStop(s, n, codec.decode, clock);
      if !rxDone {
        rxBlocksClosed := true;
        rxDone := true;
      }
    }

    /**
     * One pass of the verifier's body: check the next queued block; accept it and count on,
     * or push the one error, close the connection and stop.
     */
    method VerifyBlock(codec: Codec)
      requires rxBlocks != []
      modifies this
      ensures Snapshot() == VerifyNext(old(Snapshot()), codec.hash)
    {
      var block := rxBlocks[0];
      rxBlocks := rxBlocks[1..];
      if block.sequence == rxSequence {
        if codec.hash(block.data) != block.hash {
          errors := errors + [HashMismatch];
          peer := Close(peer);
          verifierDone := true;
        } else {
          rxSequence := (rxSequence + 1) % TWO_TO_32;
        }
      } else {
        errors := errors + [SequenceMismatch(rxSequence, block.sequence)];
        peer := Close(peer);
        verifierDone := true;
      }
    }

    /**
     * verifier: check queued blocks in order until one fails or the queue is closed and
     * empty. With the queue empty and open it returns only if the idle timeout fires
     * (`timedOut`); otherwise it is left waiting, not done.
     */
    method Verifier(codec: Codec, timedOut: bool)
      modifies this
      ensures Snapshot() == VerifyRun(old(Snapshot()), |old(rxBlocks)| + 1, codec.hash, timedOut)
    {
      ghost var start := Snapshot();
      ghost var n: nat := |rxBlocks| + 1;
      while !verifierDone && rxBlocks != []
        invariant n == |rxBlocks| + 1
        invariant VerifyRun(Snapshot(), n, codec.hash, timedOut) == VerifyRun(start, |start.rxBlocks| + 1, codec.hash, timedOut)
        decreases |rxBlocks|
      {
        VerifyBlock(codec);
        n := n - 1;
      }
      if !verifierDone && (rxBlocksClosed || timedOut) {
        verifierDone := true;
      }
    }

    /**
     * run: start the test and run the loops, in the order the source starts them (the
     * verifier only when the test expects to receive), then receive the first error queued,
     * if there is one, from the error queue and return it.
     */
    method Run(t: Test, generated: seq<Block>, codec: Codec, txClock: nat -> int, draws: nat -> nat,
               rxClock: nat -> int, timedOut: bool) returns (err: Option<Error>)
      modifies this
      ensures var r := Ran(old(Snapshot()), t, generated, codec, txClock, draws, rxClock, timedOut);
        Snapshot() == TakeError(r) && err == FirstError(r.errors)
      ensures (if err.Some? then [err.value] else []) + errors
           == Ran(old(Snapshot()), t, generated, codec, txClock, draws, rxClock, timedOut).errors
    {
      RunLoops(t, generated, codec, txClock, draws, rxClock, timedOut);
      err := ReceiveError();
    }

    /** The body of run up to the wait for both loops. */
    method RunLoops(t: Test, generated: seq<Block>, codec: Codec, txClock: nat -> int, draws: nat -> nat,
                    rxClock: nat -> int, timedOut: bool)
      modifies this
      ensures Snapshot() == Ran(old(Snapshot()), t, generated, codec, txClock, draws, rxClock, timedOut)
    {
      Start(t, generated);
      var verify := test.rxRequests > 0;
      Rxer(codec, rxClock);
      if verify {
        Verifier(codec, timedOut);
      }
      Txer(codec, txClock, draws);
    }

    /** `err := <-p.errors` when the error queue is not empty. */
    method ReceiveError() returns (err: Option<Error>)
      modifies this
      ensures Snapshot() == TakeError(old(Snapshot())) && err == FirstError(old(errors))
      ensures (if err.Some? then [err.value] else []) + errors == old(errors)
    {
      err := FirstError(errors);
      if errors != [] {
        errors := errors[1..];
      }
    }
  }
}
