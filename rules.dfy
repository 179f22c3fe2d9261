/**
 * The per-block rules of the loop3 engine, one transition each: the latency echo and
 * the pacing schedule of the transmit loop, the bounded latency queue of the receive
 * loop, the sequence and hash check of the verifier, and the choice of the run's result.
 */
module Rules {
  import opened Types
  import opened Blocks

  // ---------------------------------------------------------------------------
  // Latency echo (transmit loop)
  // ---------------------------------------------------------------------------

  /** A block together with the latency timestamps still waiting to be echoed. */
  datatype Echoed = Echoed(block: Block, pending: seq<int>)

  /** The echo turned Plain block `before` into the LatencyResponse `after`. */
  predicate Converted(before: Block, after: Block)
  {
    before.blockType == Plain && after.blockType == LatencyResponse
  }

  /** The fields the verifier checks are the same in both blocks. */
  predicate SameTraffic(a: Block, b: Block)
  {
    a.sequence == b.sequence && a.data == b.data && a.hash == b.hash
  }

  /**
   * A Plain block picks up the oldest pending timestamp and becomes a LatencyResponse
   * carrying it; any other block, or a Plain block with nothing pending, goes out as it is
   * and leaves the queue alone.
   */
  function Echo(b: Block, pending: seq<int>): (r: Echoed)
    ensures SameTraffic(b, r.block)
    ensures Converted(b, r.block) <==> b.blockType == Plain && pending != []
    ensures !Converted(b, r.block) ==> r == Echoed(b, pending)
    ensures Converted(b, r.block) ==> pending == [r.block.timestamp] + r.pending
  {
    if b.blockType == Plain && |pending| > 0 then
      Echoed(b.(blockType := LatencyResponse, timestamp := pending[0]), pending[1..])
    else
      Echoed(b, pending)
  }

  datatype EchoedAll = EchoedAll(blocks: seq<Block>, pending: seq<int>)

  /** The echo applied to a sequence of blocks in transmit order. */
  function EchoAll(bs: seq<Block>, pending: seq<int>): (r: EchoedAll)
    ensures |r.blocks| == |bs|
    decreases |bs|
  {
    if bs == [] then EchoedAll([], pending)
    else
      var e := Echo(bs[0], pending);
      var rest := EchoAll(bs[1..], e.pending);
      EchoedAll([e.block] + rest.blocks, rest.pending)
  }

  /** The timestamps carried by the blocks the echo converted, in transmit order. */
  function Stamps(before: seq<Block>, after: seq<Block>): seq<int>
    requires |before| == |after|
    decreases |before|
  {
    if before == [] then []
    else (if Converted(before[0], after[0]) then [after[0].timestamp] else [])
         + Stamps(before[1..], after[1..])
  }

  function CountPlain(bs: seq<Block>): nat
    decreases |bs|
  {
    if bs == [] then 0 else (if bs[0].blockType == Plain then 1 else 0) + CountPlain(bs[1..])
  }

  /**
   * Echo fidelity: every pending timestamp is echoed at most once and in the order it was
   * queued, the echoed ones are exactly those carried by the converted blocks, as many
   * are echoed as there were Plain blocks to carry them, and the verified fields of every
   * block are untouched.
   */
  lemma {:induction false} EchoAllFidelity(bs: seq<Block>, pending: seq<int>)
    ensures var r := EchoAll(bs, pending);
      && (forall i :: 0 <= i < |bs| ==> SameTraffic(bs[i], r.blocks[i]))
      && (forall i :: 0 <= i < |bs| ==> r.blocks[i] == bs[i] || Converted(bs[i], r.blocks[i]))
      && pending == Stamps(bs, r.blocks) + r.pending
      && |Stamps(bs, r.blocks)| == Min(CountPlain(bs), |pending|)
    decreases |bs|
  {
    if bs != [] {
      var e := Echo(bs[0], pending);
      var rest := EchoAll(bs[1..], e.pending);
      var r := EchoAll(bs, pending);
      EchoAllFidelity(bs[1..], e.pending);
      assert r.blocks == [e.block] + rest.blocks;
      assert r.blocks[1..] == rest.blocks;
      forall i | 1 <= i < |bs|
        ensures SameTraffic(bs[i], r.blocks[i]) && (r.blocks[i] == bs[i] || Converted(bs[i], r.blocks[i]))
      {
        assert bs[i] == bs[1..][i - 1] && r.blocks[i] == rest.blocks[i - 1];
      }
    }
  }

  /** Echoing a stream never changes which of its blocks the verifier accepts. */
  lemma {:induction false} EchoKeepsVerdict(expected: uint32, bs: seq<Block>, pending: seq<int>, hash: seq<byte> -> seq<byte>)
    ensures Verify(expected, EchoAll(bs, pending).blocks, hash) == Verify(expected, bs, hash)
    decreases |bs|
  {
    if bs != [] {
      var e := Echo(bs[0], pending);
      var rest := EchoAll(bs[1..], e.pending);
      var out := EchoAll(bs, pending).blocks;
      assert out[0] == e.block && out[1..] == rest.blocks;
      assert CheckBlock(expected, out[0], hash) == CheckBlock(expected, bs[0], hash);
      EchoKeepsVerdict(Next(expected), bs[1..], e.pending, hash);
    }
  }

  // ---------------------------------------------------------------------------
  // Pacing (transmit loop)
  // ---------------------------------------------------------------------------

  /** rand.Intn(maxJitter) when maxJitter > 0, from a raw random draw `r`; else no jitter. */
  function Jitter(maxJitter: int, r: nat): (j: nat)
    ensures maxJitter > 0 ==> j < maxJitter
    ensures maxJitter <= 0 ==> j == 0
  {
    if maxJitter > 0 then r % maxJitter else 0
  }

  /** The new `lastSend` and how long the loop sleeps before sending. */
  datatype Pacing = Pacing(lastSend: int, sleep: nat)

  /**
   * With pacing on, the next send is due txPacing + jitter ms after the last one; a loop
   * that is early sleeps until then, a loop that is late sends at once and restarts
   * the schedule from now. Without pacing nothing changes.
   */
  function Pace(lastSend: int, now: int, txPacing: int, jitter: nat): (r: Pacing)
    ensures txPacing <= 0 ==> r == Pacing(lastSend, 0)
    ensures txPacing > 0 ==> r.lastSend == now + r.sleep
    ensures txPacing > 0 ==> r.lastSend == Max(lastSend + txPacing + jitter, now)
    ensures txPacing > 0 ==> (r.sleep > 0 <==> lastSend + txPacing + jitter > now)
  {
    if txPacing > 0 then
      var nextSend := lastSend + txPacing + jitter;
      if nextSend > now then Pacing(nextSend, nextSend - now) else Pacing(now, 0)
    else
      Pacing(lastSend, 0)
  }

  /** The send instants of consecutive paced blocks, given each one's clock reading and random draw. */
  function SendTimes(lastSend: int, nows: seq<int>, draws: seq<nat>, txPacing: int, txMaxJitter: int): (t: seq<int>)
    requires |nows| == |draws|
    ensures |t| == |nows|
    decreases |nows|
  {
    if nows == [] then []
    else
      var next := Pace(lastSend, nows[0], txPacing, Jitter(txMaxJitter, draws[0])).lastSend;
      [next] + SendTimes(next, nows[1..], draws[1..], txPacing, txMaxJitter)
  }

  /**
   * The scheduling law: paced sends are at least txPacing ms apart, so the k-th send after
   * the first comes at least k * txPacing ms after it, and no send precedes its clock reading.
   * The catch-up law: a send is never later than the later of its clock reading and
   * txPacing + the largest jitter after the previous send.
   */
  lemma {:induction false} PacedSends(lastSend: int, nows: seq<int>, draws: seq<nat>, txPacing: int, txMaxJitter: int)
    requires |nows| == |draws| && txPacing > 0
    ensures var t := SendTimes(lastSend, nows, draws, txPacing, txMaxJitter);
      && (forall k :: 0 <= k < |t| ==> t[k] >= nows[k])
      && (forall k :: 0 <= k < |t| ==> t[k] >= t[0] + k * txPacing)
      && (forall k :: 0 < k < |t| ==> t[k] <= Max(nows[k], t[k - 1] + txPacing + Max(txMaxJitter - 1, 0)))
    decreases |nows|
  {
    if nows != [] {
      var t := SendTimes(lastSend, nows, draws, txPacing, txMaxJitter);
      var next := t[0];
      var u := SendTimes(next, nows[1..], draws[1..], txPacing, txMaxJitter);
      PacedSends(next, nows[1..], draws[1..], txPacing, txMaxJitter);
      assert t == [next] + u;
      forall k | 1 <= k < |t|
        ensures t[k] >= nows[k] && t[k] >= t[0] + k * txPacing
        ensures t[k] <= Max(nows[k], t[k - 1] + txPacing + Max(txMaxJitter - 1, 0))
      {
        assert t[k] == u[k - 1] && nows[k] == nows[1..][k - 1];
        if k == 1 {
          assert u[0] >= next + txPacing;
        } else {
          assert t[k - 1] == u[k - 2];
          assert u[k - 1] >= u[0] + (k - 1) * txPacing;
          assert u[0] >= next + txPacing;
          assert (k - 1) * txPacing + txPacing == k * txPacing;
        }
      }
    }
  }

  // ---------------------------------------------------------------------------
  // Latency queue (receive loop)
  // ---------------------------------------------------------------------------

  /** Capacity of the `latencies` channel (`make(chan *time.Time, 1024)`). */
  const LATENCY_CAPACITY: nat := 1024

  /**
   * A LatencyRequest's timestamp joins the pending queue when the queue has room and is
   * dropped otherwise; no other block type enqueues anything.
   */
  function OfferLatency(pending: seq<int>, b: Block): (r: seq<int>)
    ensures b.blockType == LatencyRequest && |pending| < LATENCY_CAPACITY ==> r == pending + [b.timestamp]
    ensures b.blockType != LatencyRequest || |pending| >= LATENCY_CAPACITY ==> r == pending
    ensures |pending| <= LATENCY_CAPACITY ==> |r| <= LATENCY_CAPACITY
  {
    if b.blockType == LatencyRequest && |pending| < LATENCY_CAPACITY then pending + [b.timestamp] else pending
  }

  /** The timestamps of the LatencyRequest blocks of `bs`, in arrival order. */
  function Requests(bs: seq<Block>): seq<int>
    decreases |bs|
  {
    if bs == [] then []
    else (if bs[0].blockType == LatencyRequest then [bs[0].timestamp] else []) + Requests(bs[1..])
  }

  /**
   * The latency queue after the receive loop has offered the blocks of `bs`, one by one.
   * The LatencyRequest timestamps join the queue in arrival order as long as it has room;
   * once it is full every later one is dropped (the receive loop never takes from it).
   */
  function OfferAll(pending: seq<int>, bs: seq<Block>): (r: seq<int>)
    ensures var room := if |pending| < LATENCY_CAPACITY then LATENCY_CAPACITY - |pending| else 0;
      r == pending + Requests(bs)[..Min(|Requests(bs)|, room)]
    decreases |bs|
  {
    if bs == [] then pending
    else
      var r := OfferAll(OfferLatency(pending, bs[0]), bs[1..]);
      var rest := Requests(bs[1..]);
      if bs[0].blockType != LatencyRequest then
        assert Requests(bs) == rest;
        r
      else if |pending| >= LATENCY_CAPACITY then
        r
      else
        assert Requests(bs) == [bs[0].timestamp] + rest;
        assert Requests(bs)[..Min(|rest| + 1, LATENCY_CAPACITY - |pending|)]
          == [bs[0].timestamp] + rest[..Min(|rest|, LATENCY_CAPACITY - |pending| - 1)];
        r
  }

  // ---------------------------------------------------------------------------
  // Verifier
  // ---------------------------------------------------------------------------

  /** `rxSequence++` on a uint32: one more, except that the largest value wraps around to 0. */
  function Next(x: uint32): (y: uint32)
    ensures x < TWO_TO_32 - 1 ==> y == x + 1
    ensures x == TWO_TO_32 - 1 ==> y == 0
  {
    (x + 1) % TWO_TO_32
  }

  lemma NextPlus(e: uint32, i: int)
    ensures (Next(e) + i) % TWO_TO_32 == (e + 1 + i) % TWO_TO_32
  {
    if e + 1 == TWO_TO_32 {
      assert Next(e) + i == e + 1 + i - TWO_TO_32;
    }
  }

  /**
   * The verifier's test of one block: the sequence must be the expected one, and only
   * then is the payload re-hashed and compared with the carried hash.
   */
  function CheckBlock(expected: uint32, b: Block, hash: seq<byte> -> seq<byte>): (r: Option<Error>)
    ensures r == None <==> b.sequence == expected && hash(b.data) == b.hash
    ensures b.sequence != expected ==> r == Some(SequenceMismatch(expected, b.sequence))
    ensures b.sequence == expected && hash(b.data) != b.hash ==> r == Some(HashMismatch)
  {
    if b.sequence == expected then
      if hash(b.data) != b.hash then Some(HashMismatch) else None
    else
      Some(SequenceMismatch(expected, b.sequence))
  }

  /**
   * The verifier over a queue of blocks: how many it accepted before stopping, the
   * expected sequence number it ends with, and the error it stopped on, if any.
   */
  datatype Verdict = Verdict(accepted: nat, next: uint32, failure: Option<Error>)

  function Verify(expected: uint32, blocks: seq<Block>, hash: seq<byte> -> seq<byte>): (v: Verdict)
    ensures v.accepted <= |blocks|
    ensures v.failure == None ==> v.accepted == |blocks|
    ensures v.failure.Some? ==> v.accepted < |blocks|
    decreases |blocks|
  {
    if blocks == [] then Verdict(0, expected, None)
    else
      match CheckBlock(expected, blocks[0], hash)
      case Some(e) => Verdict(0, expected, Some(e))
      case None =>
        var v := Verify(Next(expected), blocks[1..], hash);
        v.(accepted := v.accepted + 1)
  }

  /**
   * Every accepted block had the expected sequence number, counting up by one (modulo
   * 2^32) from `expected`, and a matching hash; the counter ends one past the last
   * accepted block; and when the verifier stopped, it stopped on the first block that
   * failed the check, with that check's error.
   */
  lemma {:induction false} VerifyAccepted(expected: uint32, blocks: seq<Block>, hash: seq<byte> -> seq<byte>)
    ensures var v := Verify(expected, blocks, hash);
      && (forall i :: 0 <= i < v.accepted ==>
            blocks[i].sequence == (expected + i) % TWO_TO_32 && hash(blocks[i].data) == blocks[i].hash)
      && v.next == (expected + v.accepted) % TWO_TO_32
      && (v.failure.Some? ==> v.failure == CheckBlock(v.next, blocks[v.accepted], hash))
    decreases |blocks|
  {
    if blocks != [] && CheckBlock(expected, blocks[0], hash) == None {
      var w := Verify(Next(expected), blocks[1..], hash);
      VerifyAccepted(Next(expected), blocks[1..], hash);
      NextPlus(expected, w.accepted);
      forall i | 1 <= i < w.accepted + 1
        ensures blocks[i].sequence == (expected + i) % TWO_TO_32 && hash(blocks[i].data) == blocks[i].hash
      {
        assert blocks[i] == blocks[1..][i - 1];
        NextPlus(expected, i - 1);
      }
    }
  }

  /** The blocks carry the sequence numbers counting up from `expected` (modulo 2^32) and their payloads' hashes. */
  predicate Consecutive(expected: uint32, blocks: seq<Block>, hash: seq<byte> -> seq<byte>)
  {
    forall i :: 0 <= i < |blocks| ==>
      blocks[i].sequence == (expected + i) % TWO_TO_32 && hash(blocks[i].data) == blocks[i].hash
  }

  /** Conversely, a queue whose blocks are consecutive from `expected` and intact is accepted whole. */
  lemma {:induction false} VerifyAcceptsConsecutive(expected: uint32, blocks: seq<Block>, hash: seq<byte> -> seq<byte>)
    requires Consecutive(expected, blocks, hash)
    ensures Verify(expected, blocks, hash) == Verdict(|blocks|, (expected + |blocks|) % TWO_TO_32, None)
    decreases |blocks|
  {
    if blocks != [] {
      assert blocks[0].sequence == expected % TWO_TO_32 == expected;
      forall i | 0 <= i < |blocks| - 1
        ensures blocks[1..][i].sequence == (Next(expected) + i) % TWO_TO_32
      {
        NextPlus(expected, i);
        assert blocks[1..][i] == blocks[i + 1];
      }
      VerifyAcceptsConsecutive(Next(expected), blocks[1..], hash);
      NextPlus(expected, |blocks| - 1);
    }
  }

  /** Starting from 0, the N accepted blocks carry exactly the sequence numbers 0, 1, ..., N-1. */
  lemma VerifyFromZero(blocks: seq<Block>, hash: seq<byte> -> seq<byte>)
    requires |blocks| <= TWO_TO_32
    ensures var v := Verify(0, blocks, hash);
      forall i :: 0 <= i < v.accepted ==> blocks[i].sequence == i
  {
    VerifyAccepted(0, blocks, hash);
  }

  /** No block after the one that failed is ever looked at. */
  lemma {:induction false} VerifyStopsAtFailure(expected: uint32, blocks: seq<Block>, later: seq<Block>, hash: seq<byte> -> seq<byte>)
    requires Verify(expected, blocks, hash).failure.Some?
    ensures var v := Verify(expected, blocks, hash);
      Verify(expected, blocks[..v.accepted + 1] + later, hash) == v
    decreases |blocks|
  {
    var v := Verify(expected, blocks, hash);
    var bs := blocks[..v.accepted + 1] + later;
    assert bs[0] == blocks[0];
    if CheckBlock(expected, blocks[0], hash) == None {
      var w := Verify(Next(expected), blocks[1..], hash);
      VerifyStopsAtFailure(Next(expected), blocks[1..], later, hash);
      assert bs[1..] == blocks[1..][..w.accepted + 1] + later;
    }
  }

  // ---------------------------------------------------------------------------
  // Result of a run
  // ---------------------------------------------------------------------------

  /** The run reports the first error pushed onto the error queue, or none. */
  function FirstError(errors: seq<Error>): (r: Option<Error>)
    ensures r == None <==> errors == []
    ensures r.Some? ==> r.value == errors[0]
  {
    if |errors| > 0 then Some(errors[0]) else None
  }
}
