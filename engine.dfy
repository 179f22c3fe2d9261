/**
 * The loop3 protocol engine as functions on a snapshot of its state. Each of the three
 * loops of the engine (transmit, receive, verify) is a run of at most `n` iterations of
 * its loop body; the `Loop3.Protocol` class is proved to do exactly these runs, and the
 * lemmas here state what the runs guarantee.
 *
 * Each guarantee is a predicate relating the state before a run to the state after it,
 * proved by induction on the run: one lemma shows that the loop body keeps the
 * predicate (from the state after one pass back to the state before it), and the run
 * lemma puts that together with the loop's exits.
 */
module Engine {
  import opened Types
  import opened Blocks
  import opened Framing
  import opened Rules

  /** Go's zero time.Time (0001-01-01 00:00:00 UTC) in Unix milliseconds. */
  const ZERO_TIME_MS: int := -62_135_596_800_000

  /** The test descriptor before `run` sets one. */
  const NO_TEST: Test := Test("", 0, 0, 0, 0, 0, 0, 0, 0)

  /**
   * The fields of `protocol`, the `lastSend` of the transmit loop, whether each loop has
   * returned, and the log of blocks the transmit loop handed to the connection.
   */
  datatype State = State(
    test: Test,
    rxSequence: uint32,
    peer: Peer,
    txBlocks: seq<Block>,
    txLog: seq<Block>,
    lastSend: int,
    txCount: nat,
    txDone: bool,
    rxCount: nat,
    lastRx: int,
    rxBlocks: seq<Block>,
    rxBlocksClosed: bool,
    rxDone: bool,
    verifierDone: bool,
    latencies: seq<int>,
    errors: seq<Error>)

  /** The latency queue never holds more than its channel's capacity. */
  predicate Inv(s: State)
  {
    |s.latencies| <= LATENCY_CAPACITY
  }

  /** newProtocol: sequence 0, counters 0, every queue empty. */
  function Initial(peer: Peer): (s: State)
    ensures Inv(s) && s.rxSequence == 0 && s.txCount == 0 && s.rxCount == 0
    ensures s.latencies == [] && s.errors == [] && s.rxBlocks == [] && s.peer == peer
  {
    State(NO_TEST, 0, peer, [], [], ZERO_TIME_MS, 0, false, 0, 0, [], false, false, false, [], [])
  }

  /** The first lines of `run`: the test is set and the generator's whole output is queued. */
  function Started(s: State, test: Test, generated: seq<Block>): (r: State)
    ensures r.test == test && r.txBlocks == generated && r.lastSend == ZERO_TIME_MS
    ensures r.(test := s.test, txBlocks := s.txBlocks, lastSend := s.lastSend) == s
  {
    s.(test := test, txBlocks := generated, lastSend := ZERO_TIME_MS)
  }

  // ---------------------------------------------------------------------------
  // Transmit loop (txer)
  // ---------------------------------------------------------------------------

  /**
   * One pass of the transmit loop's body on the next generated block: the latency echo,
   * the pacing, then txPb (in its one-step form, see Framing.TxPbWritesFrame). A failed
   * send pushes its error and ends the loop.
   */
  function TxSend(s: State, encode: Block -> seq<byte>, now: int, draw: nat): (t: State)
    requires s.txBlocks != []
    ensures t.txBlocks == s.txBlocks[1..] && |t.txLog| == |s.txLog| + 1
    ensures t.txCount == s.txCount + 1 <==> t.errors == s.errors
    ensures t.txDone <==> s.txDone || t.errors != s.errors
  {
    var e := Echo(s.txBlocks[0], s.latencies);
    var pace := Pace(s.lastSend, now, s.test.txPacing, Jitter(s.test.txMaxJitter, draw));
    var w := WriteFrame(s.peer, encode(e.block));
    s.(txBlocks := s.txBlocks[1..], latencies := e.pending, lastSend := pace.lastSend,
       peer := w.peer, txLog := s.txLog + [e.block],
       txCount := if w.result.Ok? then s.txCount + 1 else s.txCount,
       errors := if w.result.Ok? then s.errors else s.errors + [w.result.error],
       txDone := s.txDone || w.result.Err?)
  }

  /** Whether the transmit loop returns before its next pass. */
  predicate TxStops(s: State)
  {
    s.txDone || s.txCount >= s.test.txRequests || s.txBlocks == []
  }

  /**
   * At most n iterations of the transmit loop. The loop returns when the count is
   * reached, when the generator's queue is closed and empty, or after a failed send.
   * `clock(i)` and `draws(i)` are the time and the random draw of the i-th send.
   */
  function TxRun(s: State, n: nat, encode: Block -> seq<byte>, clock: nat -> int, draws: nat -> nat): (t: State)
    ensures |t.txBlocks| <= |s.txBlocks|
    ensures n > |s.txBlocks| ==> t.txDone
    decreases n
  {
    if n == 0 || s.txDone then s
    else if s.txCount >= s.test.txRequests then s.(txDone := true)
    else if s.txBlocks == [] then s.(txDone := true)
    else TxRun(TxSend(s, encode, clock(s.txCount), draws(s.txCount)), n - 1, encode, clock, draws)
  }

  /** TxRun when the loop goes on: one pass, then the remaining iterations. */
  lemma TxRunNext(s: State, n: nat, encode: Block -> seq<byte>, clock: nat -> int, draws: nat -> nat)
    requires n > 0 && !TxStops(s)
    ensures TxRun(s, n, encode, clock, draws)
         == TxRun(TxSend(s, encode, clock(s.txCount), draws(s.txCount)), n - 1, encode, clock, draws)
  {
  }

  /** TxRun when the loop does not go on: the state, marked done unless no iteration was left. */
  lemma TxRunStop(s: State, n: nat, encode: Block -> seq<byte>, clock: nat -> int, draws: nat -> nat)
    requires n == 0 || TxStops(s)
    ensures var t := TxRun(s, n, encode, clock, draws); t == s || t == s.(txDone := true)
    ensures s.txDone ==> TxRun(s, n, encode, clock, draws) == s
  {
  }

  /**
   * `t` is `s` after the transmit loop took a prefix of the generated blocks, applied the
   * latency echo to it and handed the result to the connection, using up exactly the
   * latency timestamps the echo consumed.
   */
  predicate TxEchoed(s: State, t: State)
  {
    && |t.txBlocks| <= |s.txBlocks|
    && var k := |s.txBlocks| - |t.txBlocks|;
       && s.txBlocks[k..] == t.txBlocks
       && var e := EchoAll(s.txBlocks[..k], s.latencies);
          t.txLog == s.txLog + e.blocks && t.latencies == e.pending
  }

  lemma TxEchoedStep(s: State, encode: Block -> seq<byte>, now: int, draw: nat, t: State)
    requires s.txBlocks != []
    ensures TxEchoed(TxSend(s, encode, now, draw), t) ==> TxEchoed(s, t)
  {
    var s1 := TxSend(s, encode, now, draw);
    if TxEchoed(s1, t) {
      var e := Echo(s.txBlocks[0], s.latencies);
      var k1 := |s1.txBlocks| - |t.txBlocks|;
      var k := k1 + 1;
      var pre := s.txBlocks[..k];
      assert pre[0] == s.txBlocks[0] && pre[1..] == s1.txBlocks[..k1];
      assert s.txBlocks[k..] == s1.txBlocks[k1..];
      var r1 := EchoAll(s1.txBlocks[..k1], s1.latencies);
      assert EchoAll(pre, s.latencies) == EchoedAll([e.block] + r1.blocks, r1.pending);
      assert t.txLog == s.txLog + ([e.block] + r1.blocks);
    }
  }

  /** A state that has sent nothing more since `s` follows it by the empty echo. */
  lemma TxEchoedNone(s: State, t: State)
    requires t.txBlocks == s.txBlocks && t.txLog == s.txLog && t.latencies == s.latencies
    ensures TxEchoed(s, t)
  {
    assert s.txBlocks[..0] == [];
  }

  /**
   * The transmit loop consumes a prefix of the generated blocks, and what it hands to the
   * connection is that prefix after the latency echo.
   */
  lemma {:induction false} TxRunEcho(s: State, n: nat, encode: Block -> seq<byte>, clock: nat -> int, draws: nat -> nat)
    ensures TxEchoed(s, TxRun(s, n, encode, clock, draws))
    decreases n
  {
    if n == 0 || TxStops(s) {
      TxRunStop(s, n, encode, clock, draws);
      TxEchoedNone(s, TxRun(s, n, encode, clock, draws));
    } else {
      TxRunEcho(TxSend(s, encode, clock(s.txCount), draws(s.txCount)), n - 1, encode, clock, draws);
      TxRunEchoNext(s, n, encode, clock, draws);
    }
  }

  /** TxEchoed carries back over the first pass of a transmit run that goes on. */
  lemma TxRunEchoNext(s: State, n: nat, encode: Block -> seq<byte>, clock: nat -> int, draws: nat -> nat)
    requires n > 0 && !TxStops(s)
    ensures var s1 := TxSend(s, encode, clock(s.txCount), draws(s.txCount));
      TxEchoed(s1, TxRun(s1, n - 1, encode, clock, draws)) ==> TxEchoed(s, TxRun(s, n, encode, clock, draws))
  {
    TxRunNext(s, n, encode, clock, draws);
    var s1 := TxSend(s, encode, clock(s.txCount), draws(s.txCount));
    TxEchoedStep(s, encode, clock(s.txCount), draws(s.txCount), TxRun(s1, n - 1, encode, clock, draws));
  }

  /**
   * `t` follows `s` by at most one error, pushed by the pass that ended the loop; a loop
   * that had already returned pushes nothing.
   */
  predicate TxOneError(s: State, t: State)
  {
    && |s.errors| <= |t.errors| <= |s.errors| + 1
    && t.errors[..|s.errors|] == s.errors
    && (|t.errors| > |s.errors| ==> t.txDone)
    && (s.txDone ==> t.errors == s.errors && t.txDone)
  }

  lemma TxOneErrorStep(s: State, encode: Block -> seq<byte>, now: int, draw: nat, t: State)
    requires s.txBlocks != [] && !s.txDone
    ensures TxOneError(TxSend(s, encode, now, draw), t) ==> TxOneError(s, t)
  {
    var s1 := TxSend(s, encode, now, draw);
    if TxOneError(s1, t) && !s1.txDone {
      assert t.errors[..|s.errors|] == t.errors[..|s1.errors|][..|s.errors|];
    }
  }

  /** The transmit loop pushes at most one error, and only as the iteration that ends it. */
  lemma {:induction false} TxRunErrors(s: State, n: nat, encode: Block -> seq<byte>, clock: nat -> int, draws: nat -> nat)
    ensures TxOneError(s, TxRun(s, n, encode, clock, draws))
    decreases n
  {
    var t := TxRun(s, n, encode, clock, draws);
    if n == 0 || TxStops(s) {
      TxRunStop(s, n, encode, clock, draws);
      assert t.errors[..|s.errors|] == s.errors;
    } else {
      TxRunNext(s, n, encode, clock, draws);
      TxRunErrors(TxSend(s, encode, clock(s.txCount), draws(s.txCount)), n - 1, encode, clock, draws);
      TxOneErrorStep(s, encode, clock(s.txCount), draws(s.txCount), t);
    }
  }

  /**
   * Every block the loop handed to the connection was counted, except one whose send
   * failed; and the count does not pass the test's txRequests.
   */
  predicate TxCounted(s: State, t: State)
  {
    && t.txCount + |t.errors| + |s.txLog| == s.txCount + |s.errors| + |t.txLog|
    && (s.txCount <= Max(s.test.txRequests, 0) ==> t.txCount <= Max(s.test.txRequests, 0))
  }

  lemma TxCountedStep(s: State, encode: Block -> seq<byte>, now: int, draw: nat, t: State)
    requires s.txBlocks != [] && s.txCount < s.test.txRequests
    ensures TxCounted(TxSend(s, encode, now, draw), t) ==> TxCounted(s, t)
  {
  }

  lemma {:induction false} TxRunCounts(s: State, n: nat, encode: Block -> seq<byte>, clock: nat -> int, draws: nat -> nat)
    ensures TxCounted(s, TxRun(s, n, encode, clock, draws))
    decreases n
  {
    var t := TxRun(s, n, encode, clock, draws);
    if n == 0 || TxStops(s) {
      TxRunStop(s, n, encode, clock, draws);
    } else {
      TxRunNext(s, n, encode, clock, draws);
      TxRunCounts(TxSend(s, encode, clock(s.txCount), draws(s.txCount)), n - 1, encode, clock, draws);
      TxCountedStep(s, encode, clock(s.txCount), draws(s.txCount), t);
    }
  }

  /**
   * The transmit loop leaves alone what belongs to the receive side: the test, the
   * verifier's counter and queue, the receive counters and what the connection has
   * still to deliver.
   */
  predicate TxKeeps(s: State, t: State)
  {
    && t.test == s.test && t.rxSequence == s.rxSequence && t.rxCount == s.rxCount && t.lastRx == s.lastRx
    && t.rxBlocks == s.rxBlocks && t.rxBlocksClosed == s.rxBlocksClosed && t.rxDone == s.rxDone
    && t.verifierDone == s.verifierDone && t.peer.inbound == s.peer.inbound && t.peer.open == s.peer.open
  }

  lemma TxKeepsStep(s: State, encode: Block -> seq<byte>, now: int, draw: nat, t: State)
    requires s.txBlocks != []
    ensures TxKeeps(TxSend(s, encode, now, draw), t) ==> TxKeeps(s, t)
  {
    WriteFrameOk(s.peer, encode(Echo(s.txBlocks[0], s.latencies).block));
  }

  lemma {:induction false} TxRunKeeps(s: State, n: nat, encode: Block -> seq<byte>, clock: nat -> int, draws: nat -> nat)
    ensures TxKeeps(s, TxRun(s, n, encode, clock, draws))
    decreases n
  {
    var t := TxRun(s, n, encode, clock, draws);
    if n == 0 || TxStops(s) {
      TxRunStop(s, n, encode, clock, draws);
    } else {
      TxRunNext(s, n, encode, clock, draws);
      TxRunKeeps(TxSend(s, encode, clock(s.txCount), draws(s.txCount)), n - 1, encode, clock, draws);
      TxKeepsStep(s, encode, clock(s.txCount), draws(s.txCount), t);
    }
  }

  /** The frames of a sequence of blocks, back to back. */
  function Frames(encode: Block -> seq<byte>, bs: seq<Block>): seq<byte>
    decreases |bs|
  {
    if bs == [] then [] else Frame(encode(bs[0])) + Frames(encode, bs[1..])
  }

  /**
   * `t` extends the transmit log of `s`, and when no error was pushed in between, the
   * bytes written in between are exactly the frames of the blocks logged in between.
   */
  predicate TxWired(s: State, t: State, encode: Block -> seq<byte>)
  {
    && |s.txLog| <= |t.txLog| && t.txLog[..|s.txLog|] == s.txLog
    && (t.errors == s.errors ==> t.peer.sent == s.peer.sent + Frames(encode, t.txLog[|s.txLog|..]))
  }

  /** A log that extends `log + [b]` continues past `log` with `b`. */
  lemma LogSuffix(log: seq<Block>, b: Block, longer: seq<Block>)
    requires |log| + 1 <= |longer| && longer[..|log| + 1] == log + [b]
    ensures longer[..|log|] == log
    ensures longer[|log|..] == [b] + longer[|log| + 1..]
  {
    assert longer[..|log|] == longer[..|log| + 1][..|log|];
    assert longer[|log|] == (log + [b])[|log|];
  }

  lemma TxWiredStep(s: State, encode: Block -> seq<byte>, now: int, draw: nat, t: State)
    requires s.txBlocks != []
    ensures TxWired(TxSend(s, encode, now, draw), t, encode) && TxOneError(TxSend(s, encode, now, draw), t)
            ==> TxWired(s, t, encode)
  {
    var s1 := TxSend(s, encode, now, draw);
    if TxWired(s1, t, encode) && TxOneError(s1, t) {
      var b := Echo(s.txBlocks[0], s.latencies).block;
      LogSuffix(s.txLog, b, t.txLog);
      if t.errors == s.errors {
        WriteFrameOk(s.peer, encode(b));
        assert s1.errors == s.errors;
        var later := t.txLog[|s1.txLog|..];
        assert ([b] + later)[1..] == later;
      }
    }
  }

  /**
   * When no send fails, the bytes written are exactly the frames of the blocks handed to
   * the connection, in order.
   */
  lemma {:induction false} TxRunWire(s: State, n: nat, encode: Block -> seq<byte>, clock: nat -> int, draws: nat -> nat)
    ensures TxWired(s, TxRun(s, n, encode, clock, draws), encode)
    decreases n
  {
    var t := TxRun(s, n, encode, clock, draws);
    if n == 0 || TxStops(s) {
      TxRunStop(s, n, encode, clock, draws);
      assert t.txLog[|s.txLog|..] == [];
    } else {
      var s1 := TxSend(s, encode, clock(s.txCount), draws(s.txCount));
      TxRunNext(s, n, encode, clock, draws);
      TxRunWire(s1, n - 1, encode, clock, draws);
      TxRunErrors(s1, n - 1, encode, clock, draws);
      TxWiredStep(s, encode, clock(s.txCount), draws(s.txCount), t);
    }
  }

  // ---------------------------------------------------------------------------
  // Receive loop (rxer)
  // ---------------------------------------------------------------------------

  /**
   * One pass of the receive loop's body: read and decode one block (rxPb in its one-step
   * form, see Framing.RxPbReadsFrame), offer a latency request's timestamp to the
   * latency queue, count the block, note the time and queue it for the verifier. A
   * failed read pushes its error and ends the loop.
   */
  function RxReceive(s: State, decode: seq<byte> -> Option<Block>, now: int): (t: State)
    ensures t.rxCount == s.rxCount + 1 <==> t.errors == s.errors
    ensures t.rxDone <==> s.rxDone || t.errors != s.errors
  {
    var r := ReadFrame(s.peer, decode);
    s.(peer := r.peer,
       errors := if r.result.Ok? then s.errors else s.errors + [r.result.error],
       rxDone := s.rxDone || r.result.Err?,
       latencies := if r.result.Ok? then OfferLatency(s.latencies, r.result.value) else s.latencies,
       rxCount := if r.result.Ok? then s.rxCount + 1 else s.rxCount,
       lastRx := if r.result.Ok? then now else s.lastRx,
       rxBlocks := if r.result.Ok? then s.rxBlocks + [r.result.value] else s.rxBlocks)
  }

  /** Whether the receive loop returns before its next pass. */
  predicate RxStops(s: State)
  {
    s.rxDone || s.rxCount >= s.test.rxRequests
  }

  /**
   * At most n iterations of the receive loop. When the count is reached the loop closes
   * the verifier's queue and returns; after a failed read it returns without closing it.
   * `clock(i)` is the time at which the i-th block arrived.
   */
  function RxRun(s: State, n: nat, decode: seq<byte> -> Option<Block>, clock: nat -> int): State
    decreases n
  {
    if n == 0 || s.rxDone then s
    else if s.rxCount >= s.test.rxRequests then s.(rxBlocksClosed := true, rxDone := true)
    else RxRun(RxReceive(s, decode, clock(s.rxCount)), n - 1, decode, clock)
  }

  lemma RxRunNext(s: State, n: nat, decode: seq<byte> -> Option<Block>, clock: nat -> int)
    requires n > 0 && !RxStops(s)
    ensures RxRun(s, n, decode, clock) == RxRun(RxReceive(s, decode, clock(s.rxCount)), n - 1, decode, clock)
  {
  }

  lemma RxRunStop(s: State, n: nat, decode: seq<byte> -> Option<Block>, clock: nat -> int)
    requires n == 0 || RxStops(s)
    ensures var t := RxRun(s, n, decode, clock);
      t == s || (t == s.(rxBlocksClosed := true, rxDone := true) && !s.rxDone && s.rxCount >= s.test.rxRequests)
    ensures s.rxDone ==> RxRun(s, n, decode, clock) == s
  {
  }

  /** `t` has the verifier's queue of `s` with blocks appended, one count per block. */
  predicate RxQueued(s: State, t: State)
  {
    && |s.rxBlocks| <= |t.rxBlocks| && t.rxBlocks[..|s.rxBlocks|] == s.rxBlocks
    && t.rxCount + |s.rxBlocks| == s.rxCount + |t.rxBlocks|
  }

  lemma RxQueuedStep(s: State, decode: seq<byte> -> Option<Block>, now: int, t: State)
    ensures RxQueued(RxReceive(s, decode, now), t) ==> RxQueued(s, t)
  {
    var s1 := RxReceive(s, decode, now);
    if RxQueued(s1, t) {
      assert t.rxBlocks[..|s.rxBlocks|] == t.rxBlocks[..|s1.rxBlocks|][..|s.rxBlocks|];
    }
  }

  /** The receive loop appends to the verifier's queue, one block per count. */
  lemma {:induction false} RxRunQueues(s: State, n: nat, decode: seq<byte> -> Option<Block>, clock: nat -> int)
    ensures RxQueued(s, RxRun(s, n, decode, clock))
    decreases n
  {
    var t := RxRun(s, n, decode, clock);
    if n == 0 || RxStops(s) {
      RxRunStop(s, n, decode, clock);
      assert t.rxBlocks[..|s.rxBlocks|] == s.rxBlocks;
    } else {
      RxRunNext(s, n, decode, clock);
      RxRunQueues(RxReceive(s, decode, clock(s.rxCount)), n - 1, decode, clock);
      RxQueuedStep(s, decode, clock(s.rxCount), t);
    }
  }

  /** `t` extends the verifier's queue of `s`, and its latency queue is `s`'s with every new block offered. */
  predicate RxLatencies(s: State, t: State)
  {
    && |s.rxBlocks| <= |t.rxBlocks| && t.rxBlocks[..|s.rxBlocks|] == s.rxBlocks
    && t.latencies == OfferAll(s.latencies, t.rxBlocks[|s.rxBlocks|..])
  }

  lemma RxLatenciesStep(s: State, decode: seq<byte> -> Option<Block>, now: int, t: State)
    ensures RxLatencies(RxReceive(s, decode, now), t) ==> RxLatencies(s, t)
  {
    var s1 := RxReceive(s, decode, now);
    if RxLatencies(s1, t) && s1.rxBlocks != s.rxBlocks {
      var b := s1.rxBlocks[|s.rxBlocks|];
      assert s1.rxBlocks == s.rxBlocks + [b] && s1.latencies == OfferLatency(s.latencies, b);
      var tail := t.rxBlocks[|s.rxBlocks|..];
      assert tail[0] == b && tail[1..] == t.rxBlocks[|s1.rxBlocks|..];
      assert t.rxBlocks[..|s.rxBlocks|] == t.rxBlocks[..|s1.rxBlocks|][..|s.rxBlocks|];
    }
  }

  /**
   * Over the receive loop the latency queue takes each LatencyRequest block's timestamp
   * in arrival order while it has room, and drops the rest.
   */
  lemma {:induction false} RxRunLatencies(s: State, n: nat, decode: seq<byte> -> Option<Block>, clock: nat -> int)
    ensures RxLatencies(s, RxRun(s, n, decode, clock))
    decreases n
  {
    var t := RxRun(s, n, decode, clock);
    if n == 0 || RxStops(s) {
      RxRunStop(s, n, decode, clock);
      assert t.rxBlocks[..|s.rxBlocks|] == s.rxBlocks && t.rxBlocks[|s.rxBlocks|..] == [];
    } else {
      RxRunNext(s, n, decode, clock);
      RxRunLatencies(RxReceive(s, decode, clock(s.rxCount)), n - 1, decode, clock);
      RxLatenciesStep(s, decode, clock(s.rxCount), t);
    }
  }

  /**
   * `t` follows `s` by at most one error, pushed by the pass that ended the loop without
   * closing the verifier's queue; a loop that had already returned pushes nothing.
   */
  predicate RxOneError(s: State, t: State)
  {
    && |s.errors| <= |t.errors| <= |s.errors| + 1
    && t.errors[..|s.errors|] == s.errors
    && (|t.errors| > |s.errors| ==> t.rxDone && t.rxBlocksClosed == s.rxBlocksClosed)
    && (s.rxDone ==> t.errors == s.errors && t.rxDone && t.rxBlocksClosed == s.rxBlocksClosed)
  }

  lemma RxOneErrorStep(s: State, decode: seq<byte> -> Option<Block>, now: int, t: State)
    requires !s.rxDone
    ensures RxOneError(RxReceive(s, decode, now), t) ==> RxOneError(s, t)
  {
    var s1 := RxReceive(s, decode, now);
    if RxOneError(s1, t) && !s1.rxDone {
      assert t.errors[..|s.errors|] == t.errors[..|s1.errors|][..|s.errors|];
    }
  }

  /** The receive loop pushes at most one error, and then returns without closing the queue. */
  lemma {:induction false} RxRunErrors(s: State, n: nat, decode: seq<byte> -> Option<Block>, clock: nat -> int)
    ensures RxOneError(s, RxRun(s, n, decode, clock))
    decreases n
  {
    var t := RxRun(s, n, decode, clock);
    if n == 0 || RxStops(s) {
      RxRunStop(s, n, decode, clock);
      assert t.errors[..|s.errors|] == s.errors;
    } else {
      RxRunNext(s, n, decode, clock);
      RxRunErrors(RxReceive(s, decode, clock(s.rxCount)), n - 1, decode, clock);
      RxOneErrorStep(s, decode, clock(s.rxCount), t);
    }
  }

  /**
   * The receive loop closes the verifier's queue only once its count is reached, and the
   * latency queue stays within its capacity.
   */
  predicate RxBounded(s: State, t: State)
  {
    && (t.rxBlocksClosed && !s.rxBlocksClosed ==> t.rxCount >= t.test.rxRequests)
    && (Inv(s) ==> Inv(t))
  }

  lemma RxBoundedStep(s: State, decode: seq<byte> -> Option<Block>, now: int, t: State)
    ensures RxBounded(RxReceive(s, decode, now), t) ==> RxBounded(s, t)
  {
  }

  lemma {:induction false} RxRunBounded(s: State, n: nat, decode: seq<byte> -> Option<Block>, clock: nat -> int)
    ensures RxBounded(s, RxRun(s, n, decode, clock))
    decreases n
  {
    var t := RxRun(s, n, decode, clock);
    if n == 0 || RxStops(s) {
      RxRunStop(s, n, decode, clock);
    } else {
      RxRunNext(s, n, decode, clock);
      RxRunBounded(RxReceive(s, decode, clock(s.rxCount)), n - 1, decode, clock);
      RxBoundedStep(s, decode, clock(s.rxCount), t);
    }
  }

  /**
   * The receive loop leaves alone what belongs to the transmit side and the verifier:
   * the test, the transmit queue, log and counters, the verifier's counter, and what
   * the connection has written and can still take.
   */
  predicate RxKeeps(s: State, t: State)
  {
    && t.test == s.test && t.txBlocks == s.txBlocks && t.txLog == s.txLog && t.lastSend == s.lastSend
    && t.txCount == s.txCount && t.txDone == s.txDone && t.rxSequence == s.rxSequence
    && t.verifierDone == s.verifierDone
    && t.peer.sent == s.peer.sent && t.peer.room == s.peer.room && t.peer.open == s.peer.open
  }

  lemma RxKeepsStep(s: State, decode: seq<byte> -> Option<Block>, now: int, t: State)
    ensures RxKeeps(RxReceive(s, decode, now), t) ==> RxKeeps(s, t)
  {
  }

  lemma {:induction false} RxRunKeeps(s: State, n: nat, decode: seq<byte> -> Option<Block>, clock: nat -> int)
    ensures RxKeeps(s, RxRun(s, n, decode, clock))
    decreases n
  {
    var t := RxRun(s, n, decode, clock);
    if n == 0 || RxStops(s) {
      RxRunStop(s, n, decode, clock);
    } else {
      RxRunNext(s, n, decode, clock);
      RxRunKeeps(RxReceive(s, decode, clock(s.rxCount)), n - 1, decode, clock);
      RxKeepsStep(s, decode, clock(s.rxCount), t);
    }
  }

  /** Every block decodes back from its encoding, which fits a frame's signed length. */
  predicate Decodable(codec: Codec, bs: seq<Block>)
  {
    forall c :: c in bs ==> codec.decode(codec.encode(c)) == Some(c) && |codec.encode(c)| < TWO_TO_31
  }

  lemma DecodableSuffix(codec: Codec, bs: seq<Block>, i: nat)
    requires Decodable(codec, bs) && i <= |bs|
    ensures Decodable(codec, bs[i..])
  {
    forall c | c in bs[i..] ensures c in bs {
      var j :| i <= j < |bs| && bs[j] == c;
    }
  }

  /**
   * `t` is `s` after receiving exactly the blocks `bs`, one count each, with nothing
   * failing and `rest` left on the connection.
   */
  predicate RxReadAll(s: State, t: State, bs: seq<Block>, rest: seq<byte>)
  {
    && t.rxBlocks == s.rxBlocks + bs && t.rxCount == s.rxCount + |bs| && t.errors == s.errors
    && t.rxDone == s.rxDone && t.peer.inbound == rest && t.peer.open == s.peer.open
  }

  /** One pass of the receive loop on a stream that begins with the frame of `b`. */
  lemma RxReceiveFrame(s: State, b: Block, rest: seq<byte>, codec: Codec, now: int)
    requires s.peer.open && s.peer.inbound == Frame(codec.encode(b)) + rest
    requires codec.decode(codec.encode(b)) == Some(b) && |codec.encode(b)| < TWO_TO_31
    ensures var s1 := RxReceive(s, codec.decode, now);
      && s1.rxBlocks == s.rxBlocks + [b] && s1.rxCount == s.rxCount + 1 && s1.errors == s.errors
      && s1.rxDone == s.rxDone && s1.test == s.test && s1.peer == s.peer.(inbound := rest)
  {
    var p := s.peer.(inbound := rest);
    RxPbFrame(p, codec.encode(b), rest, codec.decode);
    assert p.(inbound := Frame(codec.encode(b)) + rest) == s.peer;
    RxPbReadsFrame(s.peer, codec.decode);
  }

  /** Receiving `b` and then the blocks `bs` is receiving `[b] + bs`. */
  lemma RxReadJoin(s: State, s1: State, t: State, b: Block, bs: seq<Block>, rest: seq<byte>)
    requires s1.rxBlocks == s.rxBlocks + [b] && s1.rxCount == s.rxCount + 1 && s1.errors == s.errors
    requires s1.rxDone == s.rxDone && s1.peer.open == s.peer.open
    ensures RxReadAll(s1, t, bs, rest) ==> RxReadAll(s, t, [b] + bs, rest)
  {
    assert s.rxBlocks + [b] + bs == s.rxBlocks + ([b] + bs);
  }

  /**
   * A stream of well-formed frames of decodable blocks is received block for block: the
   * verifier's queue gets exactly those blocks, one count each, and nothing fails.
   */
  lemma {:induction false} RxRunReadsFrames(s: State, bs: seq<Block>, rest: seq<byte>,
                                            codec: Codec, clock: nat -> int)
    requires s.peer.open && !s.rxDone && s.peer.inbound == Frames(codec.encode, bs) + rest
    requires Decodable(codec, bs) && s.rxCount + |bs| <= s.test.rxRequests
    ensures RxReadAll(s, RxRun(s, |bs|, codec.decode, clock), bs, rest)
    decreases |bs|
  {
    if bs == [] {
      RxRunStop(s, 0, codec.decode, clock);
      assert s.rxBlocks + bs == s.rxBlocks;
    } else {
      var b := bs[0];
      assert b in bs;
      var tail := Frames(codec.encode, bs[1..]) + rest;
      assert s.peer.inbound == Frame(codec.encode(b)) + tail;
      RxReceiveFrame(s, b, tail, codec, clock(s.rxCount));
      var s1 := RxReceive(s, codec.decode, clock(s.rxCount));
      RxRunNext(s, |bs|, codec.decode, clock);
      DecodableSuffix(codec, bs, 1);
      RxReadJoin(s, s1, RxRun(s, |bs|, codec.decode, clock), b, bs[1..], rest);
      assert [b] + bs[1..] == bs;
      RxRunReadsFrames(s1, bs[1..], rest, codec, clock);
    }
  }

  // ---------------------------------------------------------------------------
  // Verifier
  // ---------------------------------------------------------------------------

  /**
   * One pass of the verifier's body on the next queued block: accept it and count on,
   * or push the one error, close the connection and stop.
   */
  function VerifyNext(s: State, hash: seq<byte> -> seq<byte>): (t: State)
    requires s.rxBlocks != []
    ensures t.rxBlocks == s.rxBlocks[1..]
    ensures t.verifierDone <==> s.verifierDone || t.errors != s.errors
    ensures t.errors == s.errors ==> t.rxSequence == Next(s.rxSequence) && t.peer == s.peer
    ensures t.errors != s.errors ==> |t.errors| == |s.errors| + 1 && !t.peer.open
  {
    var c := CheckBlock(s.rxSequence, s.rxBlocks[0], hash);
    s.(rxBlocks := s.rxBlocks[1..],
       rxSequence := if c.None? then Next(s.rxSequence) else s.rxSequence,
       errors := if c.None? then s.errors else s.errors + [c.value],
       peer := if c.None? then s.peer else Close(s.peer),
       verifierDone := s.verifierDone || c.Some?)
  }

  /**
   * At most n iterations of the verifier. With its queue empty it returns once the queue
   * is closed, or when the idle timeout fires (`timedOut`); that branch only logs, so it
   * pushes no error. Otherwise it keeps waiting.
   */
  function VerifyRun(s: State, n: nat, hash: seq<byte> -> seq<byte>, timedOut: bool): (t: State)
    ensures |t.rxBlocks| <= |s.rxBlocks|
    ensures n > |s.rxBlocks| && (s.rxBlocksClosed || timedOut) ==> t.verifierDone
    decreases n
  {
    if n == 0 || s.verifierDone then s
    else if s.rxBlocks == [] then
      if s.rxBlocksClosed || timedOut then s.(verifierDone := true) else s
    else VerifyRun(VerifyNext(s, hash), n - 1, hash, timedOut)
  }

  /** The verifier's effect on a whole queue, stated through the verdict of `Verify`. */
  function Verified(s: State, hash: seq<byte> -> seq<byte>, timedOut: bool): State
  {
    var v := Verify(s.rxSequence, s.rxBlocks, hash);
    match v.failure
    case None => s.(rxSequence := v.next, rxBlocks := [], verifierDone := s.rxBlocksClosed || timedOut)
    case Some(err) =>
      s.(rxSequence := v.next, rxBlocks := s.rxBlocks[v.accepted + 1..], errors := s.errors + [err],
         peer := Close(s.peer), verifierDone := true)
  }

  /**
   * Given enough iterations, the verifier loop does what `Verify` says: it accepts the
   * blocks `Verify` accepts, advancing the counter once per block, and on the first
   * failure pushes that one error, closes the connection, stops, and leaves the blocks
   * behind the failing one unexamined in the queue.
   */
  lemma {:induction false} VerifyRunIsVerify(s: State, n: nat, hash: seq<byte> -> seq<byte>, timedOut: bool)
    requires !s.verifierDone && n > |s.rxBlocks|
    ensures VerifyRun(s, n, hash, timedOut) == Verified(s, hash, timedOut)
    decreases |s.rxBlocks|
  {
    if s.rxBlocks != [] {
      var s1 := VerifyNext(s, hash);
      if CheckBlock(s.rxSequence, s.rxBlocks[0], hash) == None {
        VerifyRunIsVerify(s1, n - 1, hash, timedOut);
      }
    }
  }

  /** A queue `Verify` accepts whole is drained with no error, the counter landing where `Verify` says. */
  lemma VerifyAll(s: State, k: nat, hash: seq<byte> -> seq<byte>, timedOut: bool)
    requires k == |s.rxBlocks| && !s.verifierDone && Verify(s.rxSequence, s.rxBlocks, hash).failure == None
    ensures var t := VerifyRun(s, k + 1, hash, timedOut);
      && t.errors == s.errors && t.rxBlocks == [] && t.peer == s.peer
      && t.rxSequence == Verify(s.rxSequence, s.rxBlocks, hash).next
  {
    VerifyRunIsVerify(s, k + 1, hash, timedOut);
  }

  // ---------------------------------------------------------------------------
  // End to end
  // ---------------------------------------------------------------------------

  /**
   * `a1` is where the transmit loop got to from `a` after consuming `k` generated blocks:
   * it logged their echo, and the bytes it wrote are exactly the frames of that echo.
   */
  predicate TxReached(a: State, a1: State, k: int, encode: Block -> seq<byte>)
  {
    && k == |a.txBlocks| - |a1.txBlocks| && 0 <= k <= |a.txBlocks|
    && |a.peer.sent| <= |a1.peer.sent| && |a.txLog| <= |a1.txLog|
    && a1.txLog[|a.txLog|..] == EchoAll(a.txBlocks[..k], a.latencies).blocks
    && a1.peer.sent[|a.peer.sent|..] == Frames(encode, a1.txLog[|a.txLog|..])
  }

  /** The sending side of the round trip: with no send failing, the run reaches such a state. */
  lemma TxSide(a: State, n: nat, codec: Codec, clock: nat -> int, draws: nat -> nat)
    requires TxRun(a, n, codec.encode, clock, draws).errors == a.errors
    ensures var a1 := TxRun(a, n, codec.encode, clock, draws);
      TxReached(a, a1, |a.txBlocks| - |a1.txBlocks|, codec.encode)
  {
    var a1 := TxRun(a, n, codec.encode, clock, draws);
    TxRunEcho(a, n, codec.encode, clock, draws);
    TxRunWire(a, n, codec.encode, clock, draws);
    var k := |a.txBlocks| - |a1.txBlocks|;
    var e := EchoAll(a.txBlocks[..k], a.latencies);
    assert a1.txLog[|a.txLog|..] == e.blocks;
  }

  /** A receiving engine that has not started its loops and expects at least `k` more blocks. */
  predicate Fresh(b: State, k: nat)
  {
    b.peer.open && !b.rxDone && !b.verifierDone && b.rxBlocks == [] && b.rxCount + k <= b.test.rxRequests
  }

  /**
   * The verdict on the echo of blocks that are consecutive from the verifier's counter
   * and intact: all accepted, the counter advanced by their number.
   */
  lemma EchoedVerdict(expected: uint32, bs: seq<Block>, k: nat, pending: seq<int>, hash: seq<byte> -> seq<byte>)
    requires k == |bs| && Consecutive(expected, bs, hash)
    ensures Verify(expected, EchoAll(bs, pending).blocks, hash) == Verdict(k, (expected + k) % TWO_TO_32, None)
  {
    EchoKeepsVerdict(expected, bs, pending, hash);
    VerifyAcceptsConsecutive(expected, bs, hash);
  }

  /**
   * The `k` blocks `sent` decode, `Verify` accepts them whole from the counter of `b`, and
   * the connection of `b` holds their frames followed by `rest`.
   */
  predicate Delivered(b: State, sent: seq<Block>, k: nat, rest: seq<byte>, codec: Codec)
  {
    && k == |sent| && Decodable(codec, sent) && b.peer.inbound == Frames(codec.encode, sent) + rest
    && Verify(b.rxSequence, sent, codec.hash).failure == None
  }

  /**
   * The receiving side of the round trip: a stream of the frames of decodable blocks
   * that `Verify` accepts whole is received and verified with no error, the queue drained
   * and the counter advanced as `Verify` says.
   */
  lemma RxSide(b: State, sent: seq<Block>, k: nat, rest: seq<byte>, codec: Codec,
               clock: nat -> int, timedOut: bool)
    requires Fresh(b, k) && Delivered(b, sent, k, rest, codec)
    ensures var b1 := RxRun(b, k, codec.decode, clock);
      var b2 := VerifyRun(b1, k + 1, codec.hash, timedOut);
      && b1.rxBlocks == sent
      && b2.errors == b.errors && b2.rxBlocks == [] && b2.peer.open
      && b2.rxSequence == Verify(b.rxSequence, sent, codec.hash).next
  {
    var b1 := RxRun(b, k, codec.decode, clock);
    assert b1.rxBlocks == sent && b1.rxSequence == b.rxSequence && !b1.verifierDone
        && b1.errors == b.errors && b1.peer.open by {
      RxRunReadsFrames(b, sent, rest, codec, clock);
      RxRunKeeps(b, k, codec.decode, clock);
      assert b.rxBlocks + sent == sent;
    }
    VerifyAll(b1, k, codec.hash, timedOut);
  }

  /**
   * What the transmit loop wrote, as TxReached describes it, is a delivery the receiving
   * side accepts whole, advancing its counter by the number of blocks.
   */
  lemma TxDelivers(a: State, a1: State, b: State, k: nat, codec: Codec, rest: seq<byte>)
    requires TxReached(a, a1, k, codec.encode) && Decodable(codec, a1.txLog)
    requires Consecutive(b.rxSequence, a.txBlocks[..k], codec.hash)
    requires b.peer.inbound == a1.peer.sent[|a.peer.sent|..] + rest
    ensures Delivered(b, a1.txLog[|a.txLog|..], k, rest, codec)
    ensures Verify(b.rxSequence, a1.txLog[|a.txLog|..], codec.hash).next == (b.rxSequence + k) % TWO_TO_32
  {
    EchoedVerdict(b.rxSequence, a.txBlocks[..k], k, a.latencies, codec.hash);
    DecodableSuffix(codec, a1.txLog, |a.txLog|);
  }

  /**
   * The round trip from any state `a1` the transmit loop can reach from `a` with no send
   * failing; `k` is the number of generated blocks it consumed.
   */
  lemma RoundTrip(a: State, a1: State, b: State, k: nat, codec: Codec, rxClock: nat -> int, rest: seq<byte>,
                  timedOut: bool)
    requires TxReached(a, a1, k, codec.encode) && Decodable(codec, a1.txLog)
    requires Consecutive(b.rxSequence, a.txBlocks[..k], codec.hash)
    requires Fresh(b, k) && b.peer.inbound == a1.peer.sent[|a.peer.sent|..] + rest
    ensures var b1 := RxRun(b, k, codec.decode, rxClock);
      var b2 := VerifyRun(b1, k + 1, codec.hash, timedOut);
      && b1.rxBlocks == a1.txLog[|a.txLog|..]
      && b2.errors == b.errors && b2.rxBlocks == [] && b2.peer.open
      && b2.rxSequence == (b.rxSequence + k) % TWO_TO_32
  {
    TxDelivers(a, a1, b, k, codec, rest);
    RxSide(b, a1.txLog[|a.txLog|..], k, rest, codec, rxClock, timedOut);
  }

  /**
   * Integrity of the round trip: when one engine sends generated blocks that are
   * consecutive from the peer's expected sequence number and carry their payload's hash,
   * and no send fails, the peer receives the bytes written, decodes every block, and its
   * verifier accepts all of them, including the ones the latency echo converted, with no
   * error and its counter advanced by exactly the number `k` of blocks sent.
   */
  lemma EndToEnd(a: State, b: State, n: nat, k: nat, codec: Codec, txClock: nat -> int, draws: nat -> nat,
                 rxClock: nat -> int, rest: seq<byte>, timedOut: bool)
    requires TxRun(a, n, codec.encode, txClock, draws).errors == a.errors
    requires var a1 := TxRun(a, n, codec.encode, txClock, draws);
      && k == |a.txBlocks| - |a1.txBlocks| && k <= |a.txBlocks|
      && |a.peer.sent| <= |a1.peer.sent| && Decodable(codec, a1.txLog)
      && Consecutive(b.rxSequence, a.txBlocks[..k], codec.hash) && b.rxCount + k <= b.test.rxRequests
      && b.peer.inbound == a1.peer.sent[|a.peer.sent|..] + rest
    requires b.peer.open && !b.rxDone && !b.verifierDone && b.rxBlocks == []
    ensures var a1 := TxRun(a, n, codec.encode, txClock, draws);
      var b1 := RxRun(b, k, codec.decode, rxClock);
      var b2 := VerifyRun(b1, k + 1, codec.hash, timedOut);
      && |a.txLog| <= |a1.txLog|
      && b1.rxBlocks == a1.txLog[|a.txLog|..]
      && b2.errors == b.errors && b2.rxBlocks == [] && b2.peer.open
      && b2.rxSequence == (b.rxSequence + k) % TWO_TO_32
  {
    TxSide(a, n, codec, txClock, draws);
    RoundTrip(a, TxRun(a, n, codec.encode, txClock, draws), b, k, codec, rxClock, rest, timedOut);
  }

  // ---------------------------------------------------------------------------
  // The whole run
  // ---------------------------------------------------------------------------

  /**
   * Given more iterations than the connection has bytes to deliver, the receive loop
   * returns: every pass that does not fail consumes at least a frame header.
   */
  lemma {:induction false} RxRunFinishes(s: State, n: nat, decode: seq<byte> -> Option<Block>, clock: nat -> int)
    requires n > |s.peer.inbound|
    ensures RxRun(s, n, decode, clock).rxDone
    decreases n
  {
    if !RxStops(s) {
      RxRunNext(s, n, decode, clock);
      var s1 := RxReceive(s, decode, clock(s.rxCount));
      ReadFrameConsumes(s.peer, decode);
      if !s1.rxDone {
        RxRunFinishes(s1, n - 1, decode, clock);
      } else {
        RxRunStop(s1, n - 1, decode, clock);
      }
    }
  }

  /**
   * A verifier given enough iterations changes only the counter, its queue, the error
   * queue, the connection (which it can only close) and its own done flag, and pushes at
   * most one error.
   */
  lemma VerifyRunKeeps(s: State, n: nat, hash: seq<byte> -> seq<byte>, timedOut: bool)
    requires n > |s.rxBlocks|
    ensures var t := VerifyRun(s, n, hash, timedOut);
      && t.(rxSequence := s.rxSequence, rxBlocks := s.rxBlocks, errors := s.errors, peer := s.peer,
            verifierDone := s.verifierDone) == s
      && (t.peer == s.peer || t.peer == Close(s.peer))
      && |s.errors| <= |t.errors| <= |s.errors| + 1 && t.errors[..|s.errors|] == s.errors
  {
    if !s.verifierDone {
      VerifyRunIsVerify(s, n, hash, timedOut);
    }
    var t := VerifyRun(s, n, hash, timedOut);
    assert t.errors[..|s.errors|] == s.errors;
  }

  /** `t` extends the error queue of `s` by at most `m` errors. */
  predicate ErrorsGrow(s: State, t: State, m: nat)
  {
    |s.errors| <= |t.errors| <= |s.errors| + m && t.errors[..|s.errors|] == s.errors
  }

  lemma ErrorsGrowJoin(s: State, t: State, u: State, m1: nat, m2: nat)
    requires ErrorsGrow(s, t, m1) && ErrorsGrow(t, u, m2)
    ensures ErrorsGrow(s, u, m1 + m2)
  {
    assert u.errors[..|s.errors|] == u.errors[..|t.errors|][..|s.errors|];
  }

  /**
   * The receive loop as `run` starts it, with more iterations than it can use: it
   * returns, keeps the test, and adds at most one error.
   */
  function RxPhase(a: State, decode: seq<byte> -> Option<Block>, clock: nat -> int): (b: State)
    ensures b.test == a.test && b.rxDone && ErrorsGrow(a, b, 1)
  {
    RxRunKeeps(a, |a.peer.inbound| + 1, decode, clock);
    RxRunFinishes(a, |a.peer.inbound| + 1, decode, clock);
    RxRunErrors(a, |a.peer.inbound| + 1, decode, clock);
    RxRun(a, |a.peer.inbound| + 1, decode, clock)
  }

  /**
   * The verifier, started only when the test expects to receive, with more iterations
   * than it can use: it keeps the test and the receive loop's flag, and adds at most one
   * error; when it is not started nothing changes.
   */
  function VerifyPhase(b: State, hash: seq<byte> -> seq<byte>, timedOut: bool): (c: State)
    ensures c.test == b.test && c.rxDone == b.rxDone && ErrorsGrow(b, c, 1)
    ensures b.test.rxRequests <= 0 ==> c == b
  {
    if b.test.rxRequests > 0 then
      VerifyRunKeeps(b, |b.rxBlocks| + 1, hash, timedOut);
      VerifyRun(b, |b.rxBlocks| + 1, hash, timedOut)
    else
      assert b.errors[..|b.errors|] == b.errors;
      b
  }

  /**
   * The transmit loop, with its own zero `lastSend` and more iterations than it can use:
   * it returns, keeps the test and the receive loop's flag, and adds at most one error.
   */
  function TxPhase(c: State, encode: Block -> seq<byte>, clock: nat -> int, draws: nat -> nat): (r: State)
    ensures r.test == c.test && r.rxDone == c.rxDone && r.txDone && ErrorsGrow(c, r, 1)
  {
    var c1 := c.(lastSend := ZERO_TIME_MS);
    TxRunKeeps(c1, |c1.txBlocks| + 1, encode, clock, draws);
    TxRunErrors(c1, |c1.txBlocks| + 1, encode, clock, draws);
    TxRun(c1, |c1.txBlocks| + 1, encode, clock, draws)
  }

  /**
   * run: set the test, then the receive loop, the verifier when the test expects to
   * receive, and the transmit loop. Both loops `run` waits for have returned, the test is
   * the one `run` set, and the run added at most three errors, one per loop, behind
   * those already queued.
   */
  function Ran(s: State, t: Test, generated: seq<Block>, codec: Codec, txClock: nat -> int, draws: nat -> nat,
               rxClock: nat -> int, timedOut: bool): (r: State)
    ensures r.test == t && r.txDone && r.rxDone && ErrorsGrow(s, r, 3)
  {
    var a := Started(s, t, generated);
    var b := RxPhase(a, codec.decode, rxClock);
    var c := VerifyPhase(b, codec.hash, timedOut);
    var r := TxPhase(c, codec.encode, txClock, draws);
    ErrorsGrowJoin(a, b, c, 1, 1);
    ErrorsGrowJoin(a, c, r, 2, 1);
    r
  }

  /** The end of run: the first queued error, if any, is received from the error channel. */
  function TakeError(s: State): (r: State)
    ensures r.errors == if s.errors == [] then [] else s.errors[1..]
    ensures r.(errors := s.errors) == s
  {
    if s.errors == [] then s else s.(errors := s.errors[1..])
  }
}
