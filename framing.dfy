/**
 * The framing codec of the loop3 protocol: every message on the connection is the
 * four-byte magic header, a four-byte little-endian length and the payload bytes.
 * Each helper appends to or consumes from the connection, here a `Peer` value.
 */
module Framing {
  import opened Types

  const MAGIC_HEADER: seq<byte> := [0xCA, 0xFE, 0xF0, 0x0D]

  /**
   * One end of the connection. `inbound` holds every byte the remote side will still write,
   * none of them read yet; the remote side closes its end after the last of them, so a read
   * past them meets end of file rather than waiting;
   * `sent` holds every byte written so far; `room` is how many more bytes the transport
   * accepts, so that a write may be cut short; `open` turns false once the connection is
   * closed, after which every read and write fails.
   */
  datatype Peer = Peer(inbound: seq<byte>, sent: seq<byte>, room: nat, open: bool)

  /** The connection after an operation, and what the operation returned. */
  datatype Step<T> = Step(peer: Peer, result: Result<T>)

  function Close(p: Peer): (q: Peer)
    ensures !q.open && q.inbound == p.inbound && q.sent == p.sent && q.room == p.room
  {
    p.(open := false)
  }

  // ---------------------------------------------------------------------------
  // Little-endian 32-bit integers (encoding/binary)
  // ---------------------------------------------------------------------------

  /** binary.LittleEndian.PutUint32 */
  function PutUint32LE(v: uint32): (b: seq<byte>)
    ensures |b| == 4
  {
    [v % 0x100, v / 0x100 % 0x100, v / 0x1_0000 % 0x100, v / 0x100_0000]
  }

  /** binary.LittleEndian.Uint32 */
  function Uint32LE(b: seq<byte>): uint32
    requires |b| == 4
  {
    b[0] as int + 0x100 * b[1] as int + 0x1_0000 * b[2] as int + 0x100_0000 * b[3] as int
  }

  /** binary.Read of a little-endian int32: the unsigned value read as two's complement. */
  function Int32LE(b: seq<byte>): (v: int)
    requires |b| == 4
    ensures -TWO_TO_31 <= v < TWO_TO_31
    ensures v >= 0 <==> Uint32LE(b) < TWO_TO_31
    ensures v % TWO_TO_32 == Uint32LE(b)
  {
    var u := Uint32LE(b);
    if u < TWO_TO_31 then u else u - TWO_TO_32
  }

  lemma Uint32LEPutUint32LE(v: uint32)
    ensures Uint32LE(PutUint32LE(v)) == v
  {
    var b := PutUint32LE(v);
    assert v == b[0] + 0x100 * (v / 0x100);
    assert v / 0x100 == b[1] + 0x100 * (v / 0x1_0000);
    assert v / 0x1_0000 == b[2] + 0x100 * (v / 0x100_0000);
  }

  lemma PutUint32LEUint32LE(b: seq<byte>)
    requires |b| == 4
    ensures PutUint32LE(Uint32LE(b)) == b
  {
    var v := Uint32LE(b);
    var b0, b1, b2, b3: int := b[0], b[1], b[2], b[3];
    assert v == b0 + 0x100 * (b1 + 0x100 * (b2 + 0x100 * b3));
    assert v % 0x100 == b0 && v / 0x100 == b1 + 0x100 * (b2 + 0x100 * b3);
    assert v / 0x1_0000 == (v / 0x100) / 0x100 == b2 + 0x100 * b3;
    assert v / 0x100_0000 == (v / 0x1_0000) / 0x100 == b3;
  }

  // ---------------------------------------------------------------------------
  // The transport: io.ReadFull and io.Writer.Write on the connection
  // ---------------------------------------------------------------------------

  /**
   * io.ReadFull(peer, make([]byte, n)): exactly n bytes, or io.EOF when nothing was left,
   * or io.ErrUnexpectedEOF when only part of them was left. Because io.ReadFull reports an
   * error whenever fewer than n bytes were read, a successful read always has n bytes.
   * A read of zero bytes returns at once without touching the connection, so it succeeds
   * even on a closed one.
   */
  function ReadFull(p: Peer, n: nat): (r: Step<seq<byte>>)
    ensures r.result.Ok? <==> n == 0 || (p.open && n <= |p.inbound|)
    ensures r.result.Ok? ==> r.result.value == p.inbound[..n] && r.peer == p.(inbound := p.inbound[n..])
    ensures r.result.Err? ==> r.result.error == (if !p.open then Closed else if |p.inbound| == 0 then EOF else UnexpectedEOF)
    ensures r.peer.sent == p.sent && r.peer.room == p.room && r.peer.open == p.open
  {
    if n == 0 then Step(p, Ok([]))
    else if !p.open then Step(p, Err(Closed))
    else if n <= |p.inbound| then Step(p.(inbound := p.inbound[n..]), Ok(p.inbound[..n]))
    else if |p.inbound| == 0 then Step(p, Err(EOF))
    else Step(p.(inbound := []), Err(UnexpectedEOF))
  }

  /** How many of m bytes the transport takes in one write. */
  function Accepted(p: Peer, m: nat): (k: nat)
    ensures k <= m && k <= p.room
    ensures k == m <==> (p.open && m <= p.room) || m == 0
  {
    if !p.open then 0 else Min(m, p.room)
  }

  /** The connection after the transport has taken what it accepts of `bytes`. */
  function Wrote(p: Peer, bytes: seq<byte>): Peer
  {
    var k := Accepted(p, |bytes|);
    p.(sent := p.sent + bytes[..k], room := p.room - k)
  }

  /** io.Writer.Write: takes what the transport accepts and reports the count. */
  function Write(p: Peer, data: seq<byte>): (r: Step<nat>)
    ensures r.peer == Wrote(p, data)
    ensures r.result == if p.open then Ok(Accepted(p, |data|)) else Err(Closed)
  {
    if !p.open then Step(p, Err(Closed)) else Step(Wrote(p, data), Ok(Accepted(p, |data|)))
  }

  // ---------------------------------------------------------------------------
  // Write side
  // ---------------------------------------------------------------------------

  /** The bytes of one frame carrying `data`: magic header, uint32(len(data)) little-endian, data. */
  function Frame(data: seq<byte>): (f: seq<byte>)
    ensures |f| == 8 + |data|
    ensures f[..4] == MAGIC_HEADER && f[8..] == data
    ensures f[4..8] == PutUint32LE(|data| % TWO_TO_32)
  {
    MAGIC_HEADER + PutUint32LE(|data| % TWO_TO_32) + data
  }

  /** Writing the first part of `a + b` then, only if all of it went out, the rest. */
  lemma WroteThen(p: Peer, a: seq<byte>, b: seq<byte>)
    requires p.open && |a| <= p.room
    ensures Wrote(Wrote(p, a), b) == Wrote(p, a + b)
  {
    var k := Accepted(Wrote(p, a), |b|);
    assert (a + b)[..|a| + k] == a + b[..k];
  }

  lemma WroteShort(p: Peer, a: seq<byte>, b: seq<byte>)
    requires !p.open || p.room < |a|
    ensures Wrote(p, a) == Wrote(p, a + b)
  {
    var k := Accepted(p, |a|);
    assert (a + b)[..k] == a[..k];
  }

  /** txMagicHeader: fails on an error from the connection or when fewer than 4 bytes went out. */
  function TxMagicHeader(p: Peer): (r: Step<()>)
    ensures r.peer == Wrote(p, MAGIC_HEADER)
    ensures r.result == if !p.open then Err(Closed) else if p.room < 4 then Err(ShortMagicHeaderWrite) else Ok(())
  {
    var w := Write(p, MAGIC_HEADER);
    match w.result
    case Err(e) => Step(w.peer, Err(e))
    case Ok(n) => if n != |MAGIC_HEADER| then Step(w.peer, Err(ShortMagicHeaderWrite)) else Step(w.peer, Ok(()))
  }

  /** txLength: uint32(length) in little-endian order; Go's conversion keeps the low 32 bits. */
  function TxLength(p: Peer, length: int): (r: Step<()>)
    ensures r.peer == Wrote(p, PutUint32LE(length % TWO_TO_32))
    ensures r.result == if !p.open then Err(Closed) else if p.room < 4 then Err(ShortLengthWrite) else Ok(())
  {
    var w := Write(p, PutUint32LE(length % TWO_TO_32));
    match w.result
    case Err(e) => Step(w.peer, Err(e))
    case Ok(n) => if n != 4 then Step(w.peer, Err(ShortLengthWrite)) else Step(w.peer, Ok(()))
  }

  /** txHeader: the magic header, then the length. */
  function TxHeader(p: Peer, msgLen: int): (r: Step<()>)
    ensures r.peer == Wrote(p, MAGIC_HEADER + PutUint32LE(msgLen % TWO_TO_32))
    ensures r.result == if !p.open then Err(Closed)
                        else if p.room < 4 then Err(ShortMagicHeaderWrite)
                        else if p.room < 8 then Err(ShortLengthWrite)
                        else Ok(())
  {
    var h := TxMagicHeader(p);
    if h.result.Err? then
      WroteShort(p, MAGIC_HEADER, PutUint32LE(msgLen % TWO_TO_32));
      h
    else
      WroteThen(p, MAGIC_HEADER, PutUint32LE(msgLen % TWO_TO_32));
      TxLength(h.peer, msgLen)
  }

  /**
   * txPb with the marshalled message `data`: the output is always the part of Frame(data)
   * that the transport accepted, and the write succeeds exactly when all of it went out.
   */
  function TxPb(p: Peer, data: seq<byte>): (r: Step<()>)
    ensures r.peer == Wrote(p, Frame(data))
    ensures r.result == if !p.open then Err(Closed)
                        else if p.room < 4 then Err(ShortMagicHeaderWrite)
                        else if p.room < 8 then Err(ShortLengthWrite)
                        else if p.room < 8 + |data| then Err(ShortDataWrite)
                        else Ok(())
    ensures r.result.Ok? <==> p.open && |Frame(data)| <= p.room
    ensures r.peer.inbound == p.inbound && r.peer.open == p.open
  {
    var header := MAGIC_HEADER + PutUint32LE(|data| % TWO_TO_32);
    assert Frame(data) == header + data;
    var h := TxMagicHeader(p);
    if h.result.Err? then
      WroteShort(p, MAGIC_HEADER, PutUint32LE(|data| % TWO_TO_32) + data);
      assert MAGIC_HEADER + (PutUint32LE(|data| % TWO_TO_32) + data) == Frame(data);
      h
    else
      WroteThen(p, MAGIC_HEADER, PutUint32LE(|data| % TWO_TO_32));
      var l := TxLength(h.peer, |data|);
      if l.result.Err? then
        WroteShort(p, header, data);
        l
      else
        WroteThen(p, header, data);
        var w := Write(l.peer, data);
        match w.result
        case Err(e) => Step(w.peer, Err(e))
        case Ok(n) => if n != |data| then Step(w.peer, Err(ShortDataWrite)) else Step(w.peer, Ok(()))
  }

  /**
   * What txPb does, in one step: the transport takes what it accepts of the frame, and the
   * result names the first part of the frame that did not go out whole.
   */
  function WriteFrame(p: Peer, data: seq<byte>): Step<()>
  {
    Step(Wrote(p, Frame(data)),
         if !p.open then Err(Closed)
         else if p.room < 4 then Err(ShortMagicHeaderWrite)
         else if p.room < 8 then Err(ShortLengthWrite)
         else if p.room < 8 + |data| then Err(ShortDataWrite)
         else Ok(()))
  }

  lemma TxPbWritesFrame(p: Peer, data: seq<byte>)
    ensures TxPb(p, data) == WriteFrame(p, data)
  {
  }

  /** A whole frame goes out exactly when the connection is open and has room for it. */
  lemma WriteFrameOk(p: Peer, data: seq<byte>)
    ensures WriteFrame(p, data).result.Ok? <==> p.open && 8 + |data| <= p.room
    ensures WriteFrame(p, data).result.Ok? ==> WriteFrame(p, data).peer == p.(sent := p.sent + Frame(data), room := p.room - (8 + |data|))
    ensures WriteFrame(p, data).peer.inbound == p.inbound && WriteFrame(p, data).peer.open == p.open
  {
    var f := Frame(data);
    assert f[..|f|] == f;
  }

  // ---------------------------------------------------------------------------
  // Read side
  // ---------------------------------------------------------------------------

  /** rxMagicHeader: consumes four bytes and checks them against the magic header. */
  function RxMagicHeader(p: Peer): (r: Step<()>)
    ensures p.open && 4 <= |p.inbound| ==> r.peer == p.(inbound := p.inbound[4..])
    ensures r.result == if !p.open then Err(Closed)
                        else if |p.inbound| == 0 then Err(EOF)
                        else if |p.inbound| < 4 then Err(UnexpectedEOF)
                        else if p.inbound[..4] != MAGIC_HEADER then Err(BadHeader(p.inbound[..4]))
                        else Ok(())
    ensures r.peer.sent == p.sent && r.peer.room == p.room && r.peer.open == p.open
  {
    var d := ReadFull(p, |MAGIC_HEADER|);
    if d.result.Err? then Step(d.peer, Err(d.result.error))
    else if MAGIC_HEADER != d.result.value then Step(d.peer, Err(BadHeader(d.result.value)))
    else Step(d.peer, Ok(()))
  }

  /** rxLength: four bytes read as a little-endian signed 32-bit length. */
  function RxLength(p: Peer): (r: Step<int>)
    ensures r.result.Ok? <==> p.open && 4 <= |p.inbound|
    ensures r.result.Ok? ==> r.result.value == Int32LE(p.inbound[..4]) && r.peer == p.(inbound := p.inbound[4..])
    ensures r.result.Err? ==> r.result.error == (if !p.open then Closed else if |p.inbound| == 0 then EOF else UnexpectedEOF)
    ensures r.peer.sent == p.sent && r.peer.room == p.room && r.peer.open == p.open
  {
    var d := ReadFull(p, 4);
    if d.result.Err? then Step(d.peer, Err(d.result.error))
    else Step(d.peer, Ok(Int32LE(d.result.value)))
  }

  /** rxHeader: the magic header, then the length. */
  function RxHeader(p: Peer): (r: Step<int>)
    ensures r.result.Ok? <==> p.open && 8 <= |p.inbound| && p.inbound[..4] == MAGIC_HEADER
    ensures r.result.Ok? ==> r.result.value == Int32LE(p.inbound[4..8]) && r.peer == p.(inbound := p.inbound[8..])
  {
    var h := RxMagicHeader(p);
    if h.result.Err? then Step(h.peer, Err(h.result.error))
    else
      assert 8 <= |p.inbound| ==> h.peer.inbound[..4] == p.inbound[4..8];
      RxLength(h.peer)
  }

  /** rxMsgBody: `length` payload bytes; a negative length makes `make` panic. */
  function RxMsgBody(p: Peer, length: int): (r: Step<seq<byte>>)
    ensures r.result.Ok? <==> length == 0 || (p.open && 0 <= length <= |p.inbound|)
    ensures r.result.Ok? ==> r.result.value == p.inbound[..length] && r.peer == p.(inbound := p.inbound[length..])
    ensures length < 0 ==> r == Step(p, Err(LengthOutOfRange(length)))
  {
    if length < 0 then Step(p, Err(LengthOutOfRange(length)))
    else ReadFull(p, length)
  }

  /** proto.Unmarshal through a message codec: a payload it cannot decode is an error. */
  function Unmarshal<T>(unmarshal: seq<byte> -> Option<T>, data: seq<byte>): (r: Result<T>)
    ensures r.Ok? <==> unmarshal(data).Some?
    ensures r.Ok? ==> unmarshal(data) == Some(r.value)
  {
    match unmarshal(data)
    case Some(m) => Ok(m)
    case None => Err(Malformed)
  }

  /**
   * rxPb: reads one frame and decodes its payload. Whatever it accepts was a whole frame
   * at the head of the stream, and the stream then continues right after that frame.
   */
  function RxPb<T>(p: Peer, unmarshal: seq<byte> -> Option<T>): (r: Step<T>)
    ensures r.result.Ok? ==>
      && p.open && 8 <= |p.inbound| && p.inbound[..4] == MAGIC_HEADER
      && var n := Int32LE(p.inbound[4..8]);
         && 0 <= n && 8 + n <= |p.inbound|
         && unmarshal(p.inbound[8..8 + n]) == Some(r.result.value)
         && r.peer == p.(inbound := p.inbound[8 + n..])
    ensures r.peer.sent == p.sent && r.peer.room == p.room && r.peer.open == p.open
  {
    var h := RxMagicHeader(p);
    if h.result.Err? then Step(h.peer, Err(h.result.error))
    else
      var l := RxLength(h.peer);
      if l.result.Err? then Step(l.peer, Err(l.result.error))
      else
        assert h.peer.inbound[..4] == p.inbound[4..8];
        var length := l.result.value;
        if length < 0 then Step(l.peer, Err(LengthOutOfRange(length)))
        else
          var d := ReadFull(l.peer, length);
          if d.result.Err? then Step(d.peer, Err(d.result.error))
          else
            assert d.result.value == p.inbound[8..8 + length];
            Step(d.peer, Unmarshal(unmarshal, d.result.value))
  }

  /**
   * What rxPb does, in one step, read off the stream: the header, the signed length and
   * the payload, and for a stream that ends early, what is left of it and whether it
   * ended between two reads (io.EOF) or inside one (io.ErrUnexpectedEOF).
   */
  function ReadFrame<T>(p: Peer, unmarshal: seq<byte> -> Option<T>): Step<T>
  {
    var s := p.inbound;
    if !p.open then Step(p, Err(Closed))
    else if |s| < 4 then Step(p.(inbound := []), Err(if |s| == 0 then EOF else UnexpectedEOF))
    else if s[..4] != MAGIC_HEADER then Step(p.(inbound := s[4..]), Err(BadHeader(s[..4])))
    else if |s| < 8 then Step(p.(inbound := []), Err(if |s| == 4 then EOF else UnexpectedEOF))
    else
      var n := Int32LE(s[4..8]);
      if n < 0 then Step(p.(inbound := s[8..]), Err(LengthOutOfRange(n)))
      else if 8 + n <= |s| then Step(p.(inbound := s[8 + n..]), Unmarshal(unmarshal, s[8..8 + n]))
      else Step(p.(inbound := []), Err(if |s| == 8 then EOF else UnexpectedEOF))
  }

  /** rxPb, composed of rxHeader's reads and rxMsgBody's, is the one-step reader. */
  lemma RxPbReadsFrame<T>(p: Peer, unmarshal: seq<byte> -> Option<T>)
    ensures RxPb(p, unmarshal) == ReadFrame(p, unmarshal)
  {
    var s := p.inbound;
    if p.open && |s| >= 4 && s[..4] == MAGIC_HEADER {
      var q := p.(inbound := s[4..]);
      assert RxMagicHeader(p) == Step(q, Ok(()));
      if |s| >= 8 {
        assert q.inbound[..4] == s[4..8] && q.inbound[4..] == s[8..];
        var n := Int32LE(s[4..8]);
        assert RxLength(q) == Step(p.(inbound := s[8..]), Ok(n));
        if 0 <= n && 8 + n <= |s| {
          assert s[8..][..n] == s[8..8 + n] && s[8..][n..] == s[8 + n..];
        }
      }
    }
  }

  /** A read never adds to the stream, and one that succeeds consumes at least the 8-byte header. */
  lemma ReadFrameConsumes<T>(p: Peer, unmarshal: seq<byte> -> Option<T>)
    ensures |ReadFrame(p, unmarshal).peer.inbound| <= |p.inbound|
    ensures ReadFrame(p, unmarshal).result.Ok? ==> |ReadFrame(p, unmarshal).peer.inbound| + 8 <= |p.inbound|
  {
  }

  /**
   * Round trip: on a stream that begins with Frame(data), rxPb decodes exactly `data` and
   * consumes exactly the 8 + |data| bytes of the frame, for every payload shorter than
   * 2^31 bytes (rxLength reads the length back as a signed 32-bit integer).
   */
  lemma {:induction false} RxPbFrame<T>(p: Peer, data: seq<byte>, rest: seq<byte>, unmarshal: seq<byte> -> Option<T>)
    requires p.open && |data| < TWO_TO_31
    ensures RxPb(p.(inbound := Frame(data) + rest), unmarshal) == Step(p.(inbound := rest), Unmarshal(unmarshal, data))
  {
    FrameMagic(p, data, rest);
    FrameLength(p, data, rest);
    FrameParts(data, rest);
    var d := ReadFull(p.(inbound := data + rest), |data|);
    assert d == Step(p.(inbound := rest), Ok(data));
  }

  /** The first read of a frame accepts its magic header and leaves the rest of the frame. */
  lemma FrameMagic(p: Peer, data: seq<byte>, rest: seq<byte>)
    requires p.open
    ensures RxMagicHeader(p.(inbound := Frame(data) + rest)) == Step(p.(inbound := Frame(data)[4..] + rest), Ok(()))
  {
    FrameParts(data, rest);
  }

  /**
   * The second read of a frame gives back its length, read as a signed 32-bit integer:
   * negative from 2^31 bytes on.
   */
  lemma FrameLength(p: Peer, data: seq<byte>, rest: seq<byte>)
    requires p.open && |data| < TWO_TO_32
    ensures RxLength(p.(inbound := Frame(data)[4..] + rest))
         == Step(p.(inbound := data + rest), Ok(if |data| < TWO_TO_31 then |data| else |data| - TWO_TO_32))
  {
    var q := p.(inbound := Frame(data)[4..] + rest);
    assert q.inbound[..4] == PutUint32LE(|data|) && q.inbound[4..] == data + rest by {
      FrameParts(data, rest);
    }
    var v := if |data| < TWO_TO_31 then |data| else |data| - TWO_TO_32;
    assert Int32LE(q.inbound[..4]) == v by {
      Uint32LEPutUint32LE(|data|);
    }
    var r := RxLength(q);
    assert r.result == Ok(v) && r.peer == q.(inbound := q.inbound[4..]);
  }

  /** A frame whose length has the top bit set is refused by rxPb, which reads it as negative. */
  lemma {:induction false} RxPbLongFrame<T>(p: Peer, data: seq<byte>, rest: seq<byte>, unmarshal: seq<byte> -> Option<T>)
    requires p.open && TWO_TO_31 <= |data| < TWO_TO_32
    ensures RxPb(p.(inbound := Frame(data) + rest), unmarshal).result == Err(LengthOutOfRange(|data| - TWO_TO_32))
  {
    FrameMagic(p, data, rest);
    FrameLength(p, data, rest);
  }

  /** How a stream that begins with a frame splits into header, length, payload and the rest. */
  lemma FrameParts(data: seq<byte>, rest: seq<byte>)
    ensures (Frame(data) + rest)[..4] == MAGIC_HEADER
    ensures (Frame(data) + rest)[4..] == Frame(data)[4..] + rest
    ensures (Frame(data)[4..] + rest)[..4] == PutUint32LE(|data| % TWO_TO_32)
    ensures (Frame(data)[4..] + rest)[4..] == data + rest
    ensures (data + rest)[..|data|] == data && (data + rest)[|data|..] == rest
  {
    var f := Frame(data);
    assert (f + rest)[..4] == f[..4];
    assert (f[4..] + rest)[..4] == f[4..8];
    assert (f[4..] + rest)[4..] == f[8..] + rest;
  }
}
