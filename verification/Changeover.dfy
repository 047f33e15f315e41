/** The chunk-size changeover in the answer to a connect command: respConnectCommandMessage of
    pkg/rtmp/server/server_conn.go with the control messages of pkg/rtmp/chunk/message.go
    (section 5.4.1 of the RTMP Specification 1.0). */
module Changeover {
  import Words
  import opened Bytes
  import opened ChunkHeaders
  import opened Receiving
  import opened Sending
  import opened RoundTrip
  import opened WriteHalves

  const ABORT: nat := 2
  const ACK: nat := 3
  const WINDOW_ACK_SIZE: nat := 5
  const SET_PEER_BANDWIDTH: nat := 6

  const PEER_BANDWIDTH: nat := 2500000
  const DYNAMIC: Byte := 2

  datatype Control = Control(message: Message) | BadLength | BadType

  /** A protocol control message: csid 2, timestamp 0, stream 0, a big-endian number first. */
  function ControlMessage(typeId: nat, payload: seq<Byte>): Message {
    Message(2, 0, typeId, 0, payload)
  }

  method NewProtocolControlMessage(typeId: nat, length: nat, value: nat) returns (c: Control)
    ensures length < 4 ==> c == BadLength
    ensures length >= 4 && typeId !in {1, 2, 3, 5, 6} ==> c == BadType
    ensures length >= 4 && typeId in {1, 2, 3, 5, 6} ==>
              c == Control(Message(2, 0, typeId, 0, ToBE(value, 4) + Zeros(length - 4)))
  {
    if length < 4 {
      return BadLength;
    }
    if typeId !in {SET_CHUNK_SIZE, ABORT, ACK, WINDOW_ACK_SIZE, SET_PEER_BANDWIDTH} {
      return BadType;
    }
    var data := new Byte[length](_ => 0);
    assert data[..] == Zeros(length);
    UintAsBytes(value, data, 0, 4, true);
    assert Overlay(ToBE(value, 4), 0, Zeros(length)) == ToBE(value, 4) + Zeros(length - 4);
    return Control(ControlMessage(typeId, data[..]));
  }

  /** The three control messages, in order. */
  function Greeting(windowSize: nat, localChunkSize: nat): seq<Message> {
    [ControlMessage(WINDOW_ACK_SIZE, ToBE(windowSize, 4)),
     ControlMessage(SET_PEER_BANDWIDTH, ToBE(PEER_BANDWIDTH, 4) + [DYNAMIC]),
     ControlMessage(SET_CHUNK_SIZE, ToBE(localChunkSize, 4))]
  }

  /** The greeting on the wire, byte by byte, at any chunk size it fits: acknowledgement window
      (type 5), peer bandwidth 2500000 with a dynamic limit (type 6), chunk size (type 1), all on
      csid 2 and stream 0 at time 0 (section 5.4 of the RTMP Specification 1.0). */
  lemma GreetingLayout(windowSize: nat, localChunkSize: nat, chunkSize: nat)
    requires windowSize < 0x1_0000_0000 && localChunkSize < 0x1_0000_0000 && 5 <= chunkSize
    ensures forall m :: m in Greeting(windowSize, localChunkSize) ==> ValidCsid(m.csid)
    ensures var w, c := windowSize, localChunkSize;
            SendAll(Greeting(windowSize, localChunkSize), chunkSize)
            == [2, 0, 0, 0, 0, 0, 4, 5, 0, 0, 0, 0, w / 0x100_0000, w / 65536 % 256, w / 256 % 256, w % 256]
               + [2, 0, 0, 0, 0, 0, 5, 6, 0, 0, 0, 0, 0, 38, 37, 160, 2]
               + [2, 0, 0, 0, 0, 0, 4, 1, 0, 0, 0, 0, c / 0x100_0000, c / 65536 % 256, c / 256 % 256, c % 256]
  {
    GreetingSendable(windowSize, localChunkSize);
    var g := Greeting(windowSize, localChunkSize);
    ThreeSent(g, chunkSize);
    hide SendBytes, SendAll, ToBE, ControlMessage;
    PlainNumberLayout(5, windowSize, chunkSize);
    BandwidthLayout(chunkSize);
    PlainNumberLayout(1, localChunkSize, chunkSize);
  }

  lemma PlainNumberLayout(typeId: nat, v: nat, chunkSize: nat)
    requires typeId < 256 && v < 0x1_0000_0000 && 4 <= chunkSize
    ensures SendBytes(ControlMessage(typeId, ToBE(v, 4)), chunkSize)
            == [2, 0, 0, 0, 0, 0, 4, typeId, 0, 0, 0, 0, v / 0x100_0000, v / 65536 % 256, v / 256 % 256, v % 256]
  {
    NumberLayout(typeId, v, [], chunkSize);
    assert ToBE(v, 4) + [] == ToBE(v, 4);
  }

  lemma NumberLayout(typeId: nat, v: nat, more: seq<Byte>, chunkSize: nat)
    requires typeId < 256 && v < 0x1_0000_0000 && |more| <= 1 && 4 + |more| <= chunkSize
    ensures SendBytes(ControlMessage(typeId, ToBE(v, 4) + more), chunkSize)
            == [2, 0, 0, 0, 0, 0, 4 + |more|, typeId, 0, 0, 0, 0, v / 0x100_0000, v / 65536 % 256, v / 256 % 256, v % 256]
               + more
  {
    hide SendBytes, ToBE, ToLE;
    EncodedBytes(v);
    var payload := ToBE(v, 4) + more;
    assert payload == [v / 0x100_0000, v / 65536 % 256, v / 256 % 256, v % 256] + more;
    ControlLayout(ControlMessage(typeId, payload), chunkSize);
  }

  lemma BandwidthLayout(chunkSize: nat)
    requires 5 <= chunkSize
    ensures SendBytes(ControlMessage(6, ToBE(PEER_BANDWIDTH, 4) + [DYNAMIC]), chunkSize)
            == [2, 0, 0, 0, 0, 0, 5, 6, 0, 0, 0, 0, 0, 38, 37, 160, 2]
  {
    NumberLayout(6, 2500000, [2], chunkSize);
  }

  lemma ThreeSent(g: seq<Message>, chunkSize: nat)
    requires |g| == 3 && 0 < chunkSize && forall m :: m in g ==> ValidCsid(m.csid)
    ensures SendAll(g, chunkSize)
            == SendBytes(g[0], chunkSize) + SendBytes(g[1], chunkSize) + SendBytes(g[2], chunkSize)
  {
    hide SendBytes;
    assert g[1..][1..] == [g[2]] && [g[2]][1..] == [];
    assert SendAll([g[2]], chunkSize) == SendBytes(g[2], chunkSize);
    assert SendAll(g[1..], chunkSize) == SendBytes(g[1], chunkSize) + SendBytes(g[2], chunkSize);
  }

  lemma ControlLayout(m: Message, chunkSize: nat)
    requires m.csid == 2 && m.timestamp == 0 && m.streamId == 0 && m.typeId < 256 && 0 < |m.payload| < 256
    requires |m.payload| <= chunkSize
    ensures SendBytes(m, chunkSize) == [2, 0, 0, 0, 0, 0, |m.payload|, m.typeId, 0, 0, 0, 0] + m.payload
  {
    BasicLayout(0, 2);
    MessageLayout(FirstHeader(m));
  }

  lemma GreetingSendable(windowSize: nat, localChunkSize: nat)
    ensures forall m :: m in Greeting(windowSize, localChunkSize) ==> Sendable(m) && 4 <= |m.payload| <= 5
  {
    forall m | m in Greeting(windowSize, localChunkSize) ensures Sendable(m) && 4 <= |m.payload| <= 5 {
      var i :| 0 <= i < 3 && Greeting(windowSize, localChunkSize)[i] == m;
      assert i == 0 || i == 1 || i == 2;
    }
  }

  /** A message that fits one chunk goes out alike at both chunk sizes. */
  lemma OneChunk(m: Message, a: nat, b: nat)
    requires ValidCsid(m.csid) && 0 < |m.payload| <= a && |m.payload| <= b
    ensures SendBytes(m, a) == SendBytes(m, b)
  {
  }

  lemma Adopts(localChunkSize: nat)
    requires localChunkSize < U32
    ensures Announced(128, ControlMessage(SET_CHUNK_SIZE, ToBE(localChunkSize, 4))) == localChunkSize
  {
    Pow256Small();
    FitsExactly(localChunkSize, 4, true);
    Words.ModUnique(localChunkSize, U32, 0, localChunkSize);
  }

  lemma GreetOne(streams: Streams, m: Message, localChunkSize: nat, input: seq<Byte>, pos: nat) returns (streams': Streams)
    requires AllIdle(streams) && Sendable(m) && |m.payload| <= 128 <= localChunkSize
    requires At(input, pos, SendBytes(m, localChunkSize))
    ensures AllIdle(streams')
    ensures Serve(streams, 128, input, pos)
         == Prepend([m], Serve(streams', Announced(128, m), input, pos + |SendBytes(m, localChunkSize)|))
  {
    hide SendBytes, Serve, AllIdle, Announced;
    OneChunk(m, 128, localChunkSize);
    streams' := ServeOne(streams, 128, m, input, pos);
  }

  lemma GreetingAt(g: seq<Message>, localChunkSize: nat, input: seq<Byte>, pos: nat)
    requires |g| == 3 && 0 < localChunkSize && forall m :: m in g ==> ValidCsid(m.csid)
    requires At(input, pos, SendAll(g, localChunkSize))
    ensures var p1 := pos + |SendBytes(g[0], localChunkSize)|;
            var p2 := p1 + |SendBytes(g[1], localChunkSize)|;
            && At(input, pos, SendBytes(g[0], localChunkSize)) && At(input, p1, SendBytes(g[1], localChunkSize))
            && At(input, p2, SendBytes(g[2], localChunkSize))
            && pos + |SendAll(g, localChunkSize)| == p2 + |SendBytes(g[2], localChunkSize)|
  {
    hide SendBytes, At;
    var a, b, c := SendBytes(g[0], localChunkSize), SendBytes(g[1], localChunkSize), SendBytes(g[2], localChunkSize);
    assert g[1..][1..] == [g[2]] && g[1..][0] == g[1] && [g[2]][1..] == [];
    assert SendAll([g[2]], localChunkSize) == c + [] == c;
    assert SendAll(g[1..], localChunkSize) == b + c;
    AtJoin(input, pos, a, b + c);
    AtJoin(input, pos + |a|, b, c);
  }

  /** A receiver that still reads 128-byte chunks decodes the greeting, although it was split at
      the sender's chunk size, and goes on at that size. */
  lemma GreetingReads(windowSize: nat, localChunkSize: nat, input: seq<Byte>, pos: nat) returns (streams: Streams)
    requires 128 <= localChunkSize < U32
    requires forall m :: m in Greeting(windowSize, localChunkSize) ==> ValidCsid(m.csid)
    requires At(input, pos, SendAll(Greeting(windowSize, localChunkSize), localChunkSize))
    ensures AllIdle(streams)
    ensures Serve(map[], 128, input, pos)
         == Prepend(Greeting(windowSize, localChunkSize),
                    Serve(streams, localChunkSize, input,
                          pos + |SendAll(Greeting(windowSize, localChunkSize), localChunkSize)|))
  {
    hide SendBytes, Serve, At, SendAll;
    var g := Greeting(windowSize, localChunkSize);
    GreetingSendable(windowSize, localChunkSize);
    GreetingAt(g, localChunkSize, input, pos);
    Adopts(localChunkSize);
    assert g[0] in g && g[1] in g && g[2] in g;
    var p1 := pos + |SendBytes(g[0], localChunkSize)|;
    var p2 := p1 + |SendBytes(g[1], localChunkSize)|;
    var s1 := GreetOne(map[], g[0], localChunkSize, input, pos);
    var s2 := GreetOne(s1, g[1], localChunkSize, input, p1);
    streams := GreetOne(s2, g[2], localChunkSize, input, p2);
    ThreePrepends(g, Serve(streams, localChunkSize, input, p2 + |SendBytes(g[2], localChunkSize)|));
  }

  lemma ThreePrepends(g: seq<Message>, s: Session)
    requires |g| == 3
    ensures Prepend([g[0]], Prepend([g[1]], Prepend([g[2]], s))) == Prepend(g, s)
  {
    assert [g[0]] + ([g[1]] + ([g[2]] + s.messages)) == g + s.messages;
  }

  /** Changeover: whatever the sender's chunk size, a receiver starting at 128 decodes the
      greeting, adopts the announced size, and then decodes every later message. */
  lemma ChunkSizeChangeover(windowSize: nat, localChunkSize: nat, ms: seq<Message>)
    requires 128 <= localChunkSize < U32 && CleanMessages(ms, localChunkSize)
    requires forall m :: m in ms ==> m.typeId != SET_CHUNK_SIZE
    ensures var all := Greeting(windowSize, localChunkSize) + ms;
            && (forall m :: m in all ==> ValidCsid(m.csid))
            && var bytes := SendAll(all, localChunkSize);
            && var s := Serve(map[], 128, bytes, 0);
            s.messages == all && s.chunkSize == localChunkSize && s.pos == |bytes| && s.error == EndOfInput
  {
    hide SendBytes, Serve, At, SendAll;
    var g := Greeting(windowSize, localChunkSize);
    GreetingSendable(windowSize, localChunkSize);
    var bytes := SendAll(g + ms, localChunkSize);
    SendAllJoin(g, ms, localChunkSize);
    WholeAt(bytes);
    AtJoin(bytes, 0, SendAll(g, localChunkSize), SendAll(ms, localChunkSize));
    var streams := GreetingReads(windowSize, localChunkSize, bytes, 0);
    var streams' := StreamRoundTrip(streams, localChunkSize, ms, bytes, |SendAll(g, localChunkSize)|);
    ServeNothing(streams', localChunkSize, bytes);
  }

  lemma WholeAt(bytes: seq<Byte>)
    ensures At(bytes, 0, bytes)
  {
    assert bytes[0..|bytes|] == bytes;
  }

  lemma {:induction false} SendAllJoin(a: seq<Message>, b: seq<Message>, chunkSize: nat)
    requires 0 < chunkSize && forall m :: m in a + b ==> ValidCsid(m.csid)
    ensures forall m :: m in a || m in b ==> m in a + b
    ensures SendAll(a + b, chunkSize) == SendAll(a, chunkSize) + SendAll(b, chunkSize)
    decreases |a|
  {
    hide SendBytes;
    if a == [] {
      assert a + b == b;
    } else {
      assert (a + b)[0] == a[0] && (a + b)[1..] == a[1..] + b;
      SendAllJoin(a[1..], b, chunkSize);
    }
  }

  // ---------------------------------------------------------------- the sender

  datatype Response = Responded | SendFailed | ShortFlush | ServerPanicked

  /** Builds and queues a control message; a fifth byte, if there is one, is `extra`. */
  method SendControl(w: WriteHalf, typeId: nat, value: nat, extra: seq<Byte>) returns (r: SendResult)
    requires w.Valid() && typeId in {SET_CHUNK_SIZE, WINDOW_ACK_SIZE, SET_PEER_BANDWIDTH} && |extra| <= 1
    modifies w`pool, w`queue, w`pieces, PoolArrays(w.pool)
    ensures var m := ControlMessage(typeId, ToBE(value, 4) + extra);
            w.Valid() && r == Sent(|SendBytes(m, w.localChunkSize)|)
            && w.Pending() == old(w.Pending()) + SendBytes(m, w.localChunkSize)
    ensures forall s :: s in w.pool ==> s in old(w.pool)
    ensures fresh(w.Buffers() - old(w.Buffers()))
  {
    hide SendBytes;
    var c := NewProtocolControlMessage(typeId, 4 + |extra|, value);
    var payload := c.message.payload;
    if extra != [] {
      payload := payload[4 := extra[0]];
    }
    assert payload == ToBE(value, 4) + extra;
    var pick: nat := *;
    r := w.SendIntegralMessage(c.message.(payload := payload), pick);
  }

  /** The three control messages, in order. */
  method SendGreeting(w: WriteHalf, windowSize: nat) returns (total: nat)
    requires w.Valid()
    modifies w`pool, w`queue, w`pieces, PoolArrays(w.pool)
    ensures w.Valid() && 0 < w.localChunkSize && fresh(w.Buffers() - old(w.Buffers()))
    ensures forall s :: s in w.pool ==> s in old(w.pool)
    ensures forall m :: m in Greeting(windowSize, w.localChunkSize) ==> ValidCsid(m.csid)
    ensures w.Pending() == old(w.Pending()) + SendAll(Greeting(windowSize, w.localChunkSize), w.localChunkSize)
    ensures total == |SendAll(Greeting(windowSize, w.localChunkSize), w.localChunkSize)|
  {
    hide SendBytes, SendAll, WriteHalf.Valid, Greeting;
    ghost var g := Greeting(windowSize, w.localChunkSize);
    PositiveChunk(w);
    GreetingAcceptable(windowSize, w.localChunkSize);
    var sent := SendControl(w, WINDOW_ACK_SIZE, windowSize, []);
    total := sent.n;
    PoolShrinks(w.pool, old(w.pool));
    sent := SendControl(w, SET_PEER_BANDWIDTH, PEER_BANDWIDTH, [DYNAMIC]);
    total := total + sent.n;
    PoolShrinks(w.pool, old(w.pool));
    sent := SendControl(w, SET_CHUNK_SIZE, w.localChunkSize, []);
    total := total + sent.n;
    ThreeQueued(old(w.Pending()), g, w.localChunkSize);
  }

  /** Three control messages and the command result, one flush. The byte count is checked at the
      end: it is wrong exactly when something else was already queued. A result that cannot be
      sent leaves the control messages queued; one on a client's csid of 64 or more may panic. */
  method RespondConnect(w: WriteHalf, windowSize: nat, result: Message) returns (r: Response)
    requires w.Valid()
    modifies w`pool, w`queue, w`pieces, w`wire, PoolArrays(w.pool)
    ensures w.Valid() && 0 < w.localChunkSize && fresh(w.Buffers() - old(w.Buffers()))
    ensures forall m :: m in Greeting(windowSize, w.localChunkSize) ==> ValidCsid(m.csid)
    ensures r == ServerPanicked ==> result.payload != [] && ValidCsid(result.csid) && !Fits(old(w.pool), result.csid)
    ensures r != ServerPanicked ==>
            var all := Greeting(windowSize, w.localChunkSize) + [result];
            if result.payload != [] && ValidCsid(result.csid) then
              && (forall m :: m in all ==> ValidCsid(m.csid))
              && w.wire == old(w.wire) + old(w.Pending()) + SendAll(all, w.localChunkSize) && w.Pending() == []
              && r == if old(w.Pending()) == [] then Responded else ShortFlush
            else
              && r == SendFailed && w.wire == old(w.wire)
              && w.Pending() == old(w.Pending()) + SendAll(Greeting(windowSize, w.localChunkSize), w.localChunkSize)
  {
    hide SendBytes, SendAll, WriteHalf.Valid, WriteHalf.Pending, Greeting, Fits, EndsWithHeader;
    ghost var g := Greeting(windowSize, w.localChunkSize);
    var total := SendGreeting(w, windowSize);
    PoolShrinks(w.pool, old(w.pool));
    if Fits(old(w.pool), result.csid) { FitsShrinks(w.pool, old(w.pool), result.csid); }
    var pick: nat := *;
    var sent := w.SendIntegralMessage(result, pick);
    if sent == Panicked {
      return ServerPanicked;
    }
    if !sent.Sent? {
      return SendFailed;
    }
    total := total + sent.n;
    OneMore(old(w.Pending()), g, result, w.localChunkSize);
    var n := w.Flush();
    if n != total {
      return ShortFlush;
    }
    return Responded;
  }

  lemma GreetingAcceptable(windowSize: nat, localChunkSize: nat)
    ensures forall m :: m in Greeting(windowSize, localChunkSize) ==> ValidCsid(m.csid)
    ensures var g := Greeting(windowSize, localChunkSize);
            && |g| == 3 && g[0] == ControlMessage(WINDOW_ACK_SIZE, ToBE(windowSize, 4) + [])
            && g[1] == ControlMessage(SET_PEER_BANDWIDTH, ToBE(PEER_BANDWIDTH, 4) + [DYNAMIC])
            && g[2] == ControlMessage(SET_CHUNK_SIZE, ToBE(localChunkSize, 4) + [])
  {
    GreetingSendable(windowSize, localChunkSize);
  }

  lemma ThreeQueued(pending: seq<Byte>, g: seq<Message>, chunkSize: nat)
    requires |g| == 3 && 0 < chunkSize && forall m :: m in g ==> ValidCsid(m.csid)
    ensures pending + SendBytes(g[0], chunkSize) + SendBytes(g[1], chunkSize) + SendBytes(g[2], chunkSize)
         == pending + SendAll(g, chunkSize)
    ensures |SendAll(g, chunkSize)|
         == |SendBytes(g[0], chunkSize)| + |SendBytes(g[1], chunkSize)| + |SendBytes(g[2], chunkSize)|
  {
    ThreeSent(g, chunkSize);
    hide SendBytes, SendAll;
    var a, b, c := SendBytes(g[0], chunkSize), SendBytes(g[1], chunkSize), SendBytes(g[2], chunkSize);
    assert pending + a + b + c == pending + (a + b + c);
  }

  lemma OneMore(pending: seq<Byte>, g: seq<Message>, m: Message, chunkSize: nat)
    requires 0 < chunkSize && forall x :: x in g + [m] ==> ValidCsid(x.csid)
    requires forall x :: x in g ==> x in g + [m]
    requires ValidCsid(m.csid)
    ensures pending + SendAll(g, chunkSize) + SendBytes(m, chunkSize) == pending + SendAll(g + [m], chunkSize)
    ensures |SendAll(g + [m], chunkSize)| == |SendAll(g, chunkSize)| + |SendBytes(m, chunkSize)|
  {
    hide SendBytes;
    SendAllJoin(g, [m], chunkSize);
    assert [m][1..] == [];
    assert SendAll([m], chunkSize) == SendBytes(m, chunkSize);
  }
}
