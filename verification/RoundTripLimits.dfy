/** Exactly which messages survive a connection. */
module RoundTripLimits {
  import opened Bytes
  import opened ChunkHeaders
  import opened Receiving
  import opened Sending
  import opened RoundTrip
  import Demux

  /** All that the sender asks of a message whose fields are uint32: a csid that has a basic
      header and a payload that is not empty. */
  predicate Encodable(m: Message) {
    && ValidCsid(m.csid) && m.timestamp < U32 && m.typeId < U32 && m.streamId < U32
    && 0 < |m.payload| < U32
  }

  /** The encoder takes csids for which the receiver makes no stream. */
  lemma HighCsidLost(chunkSize: nat, m: Message)
    requires Encodable(m) && 65559 < m.csid && 0 < chunkSize
    ensures RecvMessage(map[], chunkSize, SendBytes(m, chunkSize), 0) == Failed(NilStream)
  {
    var bytes := SendBytes(m, chunkSize);
    FirstBasicReads(chunkSize, m);
    assert RecvChunk(map[], chunkSize, bytes, 0) == ChunkFail(NilStream);
  }

  lemma FirstBasicReads(chunkSize: nat, m: Message)
    requires ValidCsid(m.csid) && 0 < chunkSize
    ensures var bytes := SendBytes(m, chunkSize);
            && ParseBasic(bytes, 0) == Basic(0, m.csid, BasicSize(m.csid))
            && At(bytes, BasicSize(m.csid), MessageBytes(FirstHeader(m)))
  {
    hide ParseBasic, MessageBytes;
    var bytes := SendBytes(m, chunkSize);
    var header := HeaderBytes(FirstHeader(m));
    var rest := bytes[|header|..];
    assert bytes == header + rest;
    assert bytes[0..|bytes|] == bytes;
    AtJoin(bytes, 0, header, rest);
    AtJoin(bytes, 0, BasicBytes(0, m.csid), MessageBytes(FirstHeader(m)));
    BasicRoundTrip(bytes, 0, 0, m.csid);
  }

  // ---------------------------------------------------------------- truncated fields

  const LENGTHS: nat := 0x100_0000

  /** What is left of m in 24 bits of length and 8 bits of type. */
  function Truncated(m: Message): Message {
    m.(typeId := m.typeId % 256, payload := m.payload[..|m.payload| % LENGTHS])
  }

  lemma EncodeTruncates(v: nat, n: nat, bigEndian: bool)
    ensures Encode(v % Pow256(n), n, bigEndian) == Encode(v, n, bigEndian)
  {
    DecodeEncode(v, n, bigEndian);
    EncodeDecode(Encode(v, n, bigEndian), bigEndian);
  }

  lemma SameHeader(m: Message)
    requires ValidCsid(m.csid)
    ensures HeaderBytes(FirstHeader(Truncated(m))) == HeaderBytes(FirstHeader(m))
  {
    Pow256Small();
    EncodeTruncates(|m.payload|, 3, true);
    EncodeTruncates(m.typeId, 1, true);
    assert |Truncated(m).payload| == |m.payload| % LENGTHS;
  }

  /** A shorter payload goes out as a prefix of what the longer one does. */
  lemma {:induction false} ContinuationPrefix(csid: nat, a: seq<Byte>, b: seq<Byte>, chunkSize: nat)
    requires ValidCsid(csid) && 0 < chunkSize && a <= b
    ensures ContinuationBytes(csid, a, chunkSize) <= ContinuationBytes(csid, b, chunkSize)
    decreases |a|
  {
    if chunkSize <= |a| {
      ContinuationPrefix(csid, a[chunkSize..], b[chunkSize..], chunkSize);
      assert a[..chunkSize] == b[..chunkSize];
    } else if chunkSize <= |b| {
      assert a <= b[..chunkSize];
    }
  }

  lemma TruncatedPrefix(m: Message, chunkSize: nat)
    requires ValidCsid(m.csid) && 0 < chunkSize
    ensures SendBytes(Truncated(m), chunkSize) <= SendBytes(m, chunkSize)
  {
    SameHeader(m);
    hide HeaderBytes;
    var a, b := Truncated(m).payload, m.payload;
    assert a <= b;
    if chunkSize < |a| {
      ContinuationPrefix(m.csid, a[chunkSize..], b[chunkSize..], chunkSize);
      assert a[..chunkSize] == b[..chunkSize];
    } else if chunkSize < |b| {
      assert a <= b[..chunkSize];
    }
  }

  /** What arrives instead of a message whose length or type id is too large for its header
      field: the message with both fields truncated, and the payload cut to match. */
  lemma TruncatedArrives(chunkSize: nat, m: Message)
    requires Encodable(m) && m.csid <= MAX_CSID && m.timestamp < NO_TIMESTAMP && 0 < chunkSize
    requires |m.payload| % LENGTHS != 0
    ensures var r := RecvMessage(map[], chunkSize, SendBytes(m, chunkSize), 0);
            r.Done? && MessageOf(r.streams[r.csid]) == Truncated(m)
  {
    hide RecvMessage, SendBytes;
    TruncatedPrefix(m, chunkSize);
    var bytes := SendBytes(m, chunkSize);
    var t := SendBytes(Truncated(m), chunkSize);
    assert bytes[0..|t|] == t;
    MessageRoundTrip(map[], chunkSize, Truncated(m), bytes, 0);
  }

  lemma LateHeaderReads(m: Message, input: seq<Byte>, pos: nat)
    requires Encodable(m) && |m.payload| < LENGTHS && NO_TIMESTAMP <= m.timestamp
    requires At(input, pos, MessageBytes(FirstHeader(m)))
    ensures BE24(input, pos) == NO_TIMESTAMP && BE24(input, pos + 3) == |m.payload|
  {
    var s := MessageBytes(FirstHeader(m));
    Pow256Small();
    assert s[0..3] == Encode(NO_TIMESTAMP, 3, true) && s[3..6] == Encode(|m.payload|, 3, true);
    FieldReads(input, pos, s, 0, NO_TIMESTAMP, 3, true);
    FieldReads(input, pos, s, 3, |m.payload|, 3, true);
  }

  // ---------------------------------------------------------------- what a message costs

  /** The least number of bytes in which `left` payload bytes of a chunk stream can arrive. */
  function Cost(left: nat, chunkSize: nat, basic: nat): nat
    requires 0 < chunkSize
    decreases left
  {
    if left == 0 then 0 else basic + Min(left, chunkSize) + Cost(left - Min(left, chunkSize), chunkSize, basic)
  }

  lemma {:induction false} CostIsReadSize(m: Message, k: nat, chunkSize: nat)
    requires ValidCsid(m.csid) && 0 < chunkSize && k < |m.payload|
    ensures Cost(|m.payload| - k, chunkSize, BasicSize(m.csid)) == ReadSize(m, k, chunkSize)
    decreases |m.payload| - k
  {
    ReadSizes(m, k, chunkSize);
    if k + chunkSize < |m.payload| {
      CostIsReadSize(m, k + chunkSize, chunkSize);
      assert |m.payload| - k - chunkSize == |m.payload| - (k + chunkSize);
    }
  }

  /** No basic header is shorter than the one the encoder chooses. */
  lemma BasicAtLeast(input: seq<Byte>, pos: nat)
    requires ParseBasic(input, pos).Basic?
    ensures var b := ParseBasic(input, pos); pos + BasicSize(b.csid) <= b.next
  {
  }

  /** A chunk inside a message carries at most a chunk of it and costs at least its header. */
  lemma PartialGrows(ms: Streams, chunkSize: nat, input: seq<Byte>, pos: nat, c: Chunk)
    requires StreamsOk(ms) && c == RecvChunk(ms, chunkSize, input, pos) && c.Chunk?
    requires c.csid in ms && 0 < ms[c.csid].hasRead
    ensures var m := ms[c.csid];
            var size := Min(m.messageLength - m.hasRead, chunkSize);
            && c.stream.messageLength == m.messageLength && c.stream.hasRead == m.hasRead + size
            && (c.stream.integral <==> m.hasRead + size == m.messageLength)
            && pos + BasicSize(c.csid) + size <= c.next
  {
    var b := ParseBasic(input, pos);
    var m := ms[c.csid];
    BasicAtLeast(input, pos);
    HeaderKeepsPartial(m, b.fmt, input, b.next);
    LengthStays(m, b.fmt, input, b.next);
    hide ParseBasic, ReadHeader;
  }

  lemma LengthStays(m: StreamState, fmt: nat, input: seq<Byte>, pos: nat)
    requires fmt <= 3 && pos <= |input| && StreamOk(m) && 0 < m.hasRead && ReadHeader(m, fmt, input, pos).Read?
    ensures ReadHeader(m, fmt, input, pos).stream.messageLength == m.messageLength
  {
  }

  /** Whatever is interleaved with it, finishing a half-read message takes its cost in bytes. */
  lemma {:induction false} FinishCosts(ms: Streams, chunkSize: nat, input: seq<Byte>, pos: nat, k: nat)
    requires StreamsOk(ms) && 0 < chunkSize && k in ms && 0 < ms[k].hasRead
    requires var r := RecvMessage(ms, chunkSize, input, pos); r.Done? && r.csid == k
    ensures var left: nat := ms[k].messageLength - ms[k].hasRead;
            pos + Cost(left, chunkSize, BasicSize(k)) <= RecvMessage(ms, chunkSize, input, pos).next
    decreases |input| - pos
  {
    hide RecvChunk;
    var c := RecvChunk(ms, chunkSize, input, pos);
    ChunkKeepsStreams(ms, chunkSize, input, pos);
    if c.csid == k {
      PartialGrows(ms, chunkSize, input, pos, c);
    }
    if !c.stream.integral {
      FinishCosts(ms[c.csid := c.stream], chunkSize, input, c.next, k);
    }
  }

  // ---------------------------------------------------------------- late timestamps

  /** What the receiver makes of the first chunk: four payload bytes taken for a timestamp. */
  lemma LateFirstChunk(chunkSize: nat, m: Message)
    requires Encodable(m) && |m.payload| < LENGTHS && 0 < chunkSize
    requires m.csid <= MAX_CSID && NO_TIMESTAMP <= m.timestamp
    ensures var bytes := SendBytes(m, chunkSize);
            var c := RecvChunk(map[], chunkSize, bytes, 0);
            c.Chunk? ==>
              && c.csid == m.csid && c.stream.messageLength == |m.payload|
              && c.stream.hasRead == Min(|m.payload|, chunkSize)
              && (c.stream.integral <==> |m.payload| <= chunkSize)
              && c.next == BasicSize(m.csid) + 15 + Min(|m.payload|, chunkSize)
  {
    hide SendBytes, ParseBasic;
    var bytes := SendBytes(m, chunkSize);
    FirstBasicReads(chunkSize, m);
    LateHeaderReads(m, bytes, BasicSize(m.csid));
  }

  /** A timestamp of 0xffffff or more announces four bytes that the sender never sends: the
      receiver takes them from the payload and misses them at the end of the message. */
  lemma LateTimestampLost(chunkSize: nat, m: Message)
    requires Encodable(m) && |m.payload| < LENGTHS && 0 < chunkSize
    requires m.csid <= MAX_CSID && NO_TIMESTAMP <= m.timestamp
    ensures var r := RecvMessage(map[], chunkSize, SendBytes(m, chunkSize), 0);
            !(r.Done? && r.csid == m.csid)
  {
    hide RecvChunk, SendBytes;
    var bytes := SendBytes(m, chunkSize);
    var c := RecvChunk(map[], chunkSize, bytes, 0);
    LateFirstChunk(chunkSize, m);
    SendSplits(m, chunkSize);
    FirstChunkSize(m, chunkSize);
    if c.Chunk? {
      ChunkKeepsStreams(map[], chunkSize, bytes, 0);
      var r := RecvMessage(map[], chunkSize, bytes, 0);
      if |m.payload| > chunkSize && r.Done? && r.csid == m.csid {
        FinishCosts(map[c.csid := c.stream], chunkSize, bytes, c.next, m.csid);
        CostIsReadSize(m, chunkSize, chunkSize);
      }
    }
  }

  lemma FirstChunkSize(m: Message, chunkSize: nat)
    requires ValidCsid(m.csid)
    ensures |FirstChunk(m, chunkSize)| == BasicSize(m.csid) + 11 + Min(|m.payload|, chunkSize)
  {
  }

  // ---------------------------------------------------------------- fmt 3

  /** A stream cannot open with fmt 3, so the branch that would add its delta is never taken; on
      any other stream fmt 3 leaves a timestamp that is not extended alone. */
  lemma Fmt3KeepsTimestamp(m: StreamState, input: seq<Byte>, pos: nat)
    requires pos <= |input|
    ensures var r := ReadHeader(m, 3, input, pos);
            && (m.firstChunk ==> r == ReadFail(FirstChunkNotFull))
            && (!m.firstChunk && !m.extended ==> r == Read(m, pos))
  {
  }

  /** Section 5.3.1.2.4 of the RTMP Specification 1.0 has a new message that opens with fmt 3 add
      the delta of the message before. Whatever header set it, the code agrees exactly at 0. */
  lemma Fmt3AgreesIff(m: StreamState, input: seq<Byte>, pos: nat)
    requires pos <= |input| && !m.firstChunk && !m.extended && m.hasRead == 0
    requires m.timestamp < U32 && m.delta < U32
    ensures ReadHeader(m, 3, input, pos).stream.timestamp == (m.timestamp + m.delta) % U32 <==> m.delta == 0
  {
    Fmt3KeepsTimestamp(m, input, pos);
    if m.timestamp + m.delta >= U32 {
      assert (m.timestamp + m.delta) % U32 == m.timestamp + m.delta - U32;
    }
  }

  /** The chunks of a message that opens with fmt 3. */
  function Fmt3Bytes(m: Message, chunkSize: nat): seq<Byte>
    requires ValidCsid(m.csid) && 0 < chunkSize
  {
    NextChunk(m, 0, chunkSize) + if |m.payload| <= chunkSize then [] else Rest(m, chunkSize, chunkSize)
  }

  /** The chunks of m without the surplus one. */
  function FullChunks(m: Message, chunkSize: nat): seq<Byte>
    requires ValidCsid(m.csid) && 0 < chunkSize
  {
    SendLength(m, chunkSize);
    SendBytes(m, chunkSize)[..|SendBytes(m, chunkSize)| - |Surplus(m, chunkSize)|]
  }

  /** Stream m.csid between messages, with everything but the payload as m has it. */
  ghost predicate Repeats(ms: Streams, m: Message, fmt: nat) {
    m.csid in ms && ms[m.csid].(data := []) == Partial(m, fmt, 0).(data := [], integral := false)
  }

  lemma Fmt3First(ms: Streams, chunkSize: nat, m: Message, fmt: nat, input: seq<Byte>, pos: nat)
    requires StreamsOk(ms) && Repeats(ms, m, fmt) && Sendable(m) && 0 < chunkSize
    requires At(input, pos, NextChunk(m, 0, chunkSize))
    ensures RecvChunk(ms, chunkSize, input, pos)
         == Chunk(m.csid, Partial(m, fmt, Min(|m.payload|, chunkSize)), pos + |NextChunk(m, 0, chunkSize)|)
  {
    hide At, ParseBasic, ReadBody;
    var k := Min(|m.payload|, chunkSize);
    assert m.payload[0..0 + Min(|m.payload| - 0, chunkSize)] == m.payload[..k];
    AtJoin(input, pos, BasicBytes(3, m.csid), m.payload[..k]);
    BasicRoundTrip(input, pos, 3, m.csid);
    Fmt3KeepsTimestamp(ms[m.csid], input, pos + BasicSize(m.csid));
    FirstBodyReads(m, fmt, ms[m.csid], chunkSize, input, pos + BasicSize(m.csid));
  }

  lemma Fmt3Reads(ms: Streams, chunkSize: nat, m: Message, fmt: nat, input: seq<Byte>, pos: nat) returns (next: nat)
    requires StreamsOk(ms) && Repeats(ms, m, fmt) && Sendable(m) && 0 < chunkSize
    requires At(input, pos, Fmt3Bytes(m, chunkSize))
    ensures RecvMessage(ms, chunkSize, input, pos) == Finished(ms, m, fmt, next)
  {
    hide RecvChunk, RecvMessage, At, NextChunk, Rest, Repeats;
    var first, n := NextChunk(m, 0, chunkSize), |m.payload|;
    var p := pos + |first|;
    var c := Chunk(m.csid, Partial(m, fmt, Min(n, chunkSize)), p);
    if n <= chunkSize {
      assert Fmt3Bytes(m, chunkSize) == first;
      Fmt3First(ms, chunkSize, m, fmt, input, pos);
      MessageEnd(ms, chunkSize, input, pos, c);
      next := p;
    } else {
      AtJoin(input, pos, first, Rest(m, chunkSize, chunkSize));
      Fmt3First(ms, chunkSize, m, fmt, input, pos);
      PartialOk(ms, m, fmt, chunkSize);
      var mid := ms[m.csid := Partial(m, fmt, chunkSize)];
      ContinuationReads(mid, chunkSize, m, fmt, chunkSize, input, p);
      next := p + ReadSize(m, chunkSize, chunkSize);
      FinishedTwice(ms, m, fmt, chunkSize, next);
      MessageStep(ms, chunkSize, input, pos, c, Finished(ms, m, fmt, next));
    }
  }

  /** The surplus chunk of a message is the basic header that opens the next. */
  lemma SurplusOpens(chunkSize: nat, m: Message, m': Message)
    requires ValidCsid(m.csid) && 0 < chunkSize && m'.csid == m.csid
    ensures Surplus(m, chunkSize) <= Fmt3Bytes(m', chunkSize)
  {
    hide BasicBytes, Rest;
    var header := BasicBytes(3, m.csid);
    var body := m'.payload[0..0 + Min(|m'.payload| - 0, chunkSize)];
    var rest := if |m'.payload| <= chunkSize then [] else Rest(m', chunkSize, chunkSize);
    assert Fmt3Bytes(m', chunkSize) == header + body + rest == header + (body + rest);
  }

  lemma FullChunksFirst(chunkSize: nat, m: Message)
    requires ValidCsid(m.csid) && 0 < chunkSize
    ensures SendBytes(m, chunkSize) == FullChunks(m, chunkSize) + Surplus(m, chunkSize)
  {
    var bytes, surplus := SendBytes(m, chunkSize), Surplus(m, chunkSize);
    assert bytes[0..|bytes|] == bytes;
    SurplusUnread(m, chunkSize, bytes, 0);
    hide SendBytes, Surplus;
    assert bytes == bytes[..|bytes| - |surplus|] + bytes[|bytes| - |surplus|..];
  }

  lemma Fmt3Layout(chunkSize: nat, m: Message, m': Message)
    requires ValidCsid(m.csid) && 0 < chunkSize && m'.csid == m.csid
    ensures var full := FullChunks(m, chunkSize);
            var input := full + Fmt3Bytes(m', chunkSize);
            && |full| == |SendBytes(m, chunkSize)| - |Surplus(m, chunkSize)|
            && At(input, 0, SendBytes(m, chunkSize)) && At(input, |full|, Fmt3Bytes(m', chunkSize))
  {
    FullChunksFirst(chunkSize, m);
    SurplusOpens(chunkSize, m, m');
    hide SendBytes, Surplus, FullChunks, Fmt3Bytes;
    var full, next := FullChunks(m, chunkSize), Fmt3Bytes(m', chunkSize);
    var input := full + next;
    var n := |full| + |Surplus(m, chunkSize)|;
    assert input[0..n] == full + Surplus(m, chunkSize);
    assert input[|full|..|full| + |next|] == next;
  }

  /** The reached case: any message, then any other payload of its length opened by fmt 3. It
      arrives with the timestamp of the first, which is its delta as well. */
  lemma Fmt3DeltaLost(chunkSize: nat, m: Message, payload: seq<Byte>)
    requires Sendable(m) && 0 < chunkSize && |payload| == |m.payload|
    requires m.typeId != SET_CHUNK_SIZE
    ensures var m' := m.(payload := payload);
            var got := Serve(map[], chunkSize, FullChunks(m, chunkSize) + Fmt3Bytes(m', chunkSize), 0).messages;
            && [m, m'] <= got
            && (got[1].timestamp == (m.timestamp + m.timestamp) % U32 <==> m.timestamp == 0)
  {
    hide RecvChunk, RecvMessage, SendBytes, Surplus, Fmt3Bytes, FullChunks, At;
    var m' := m.(payload := payload);
    var full := FullChunks(m, chunkSize);
    var input := full + Fmt3Bytes(m', chunkSize);
    Fmt3Layout(chunkSize, m, m');
    var first := Complete(map[], m);
    MessageRoundTrip(map[], chunkSize, m, input, 0);
    ServeStep(map[], chunkSize, input, 0, Done(m.csid, first, |full|));
    var ms := first[m.csid := Reset(first[m.csid])];
    SecondReads(ms, chunkSize, m, m', input, |full|);
  }

  lemma SecondReads(ms: Streams, chunkSize: nat, m: Message, m': Message, input: seq<Byte>, pos: nat)
    requires Sendable(m) && 0 < chunkSize && |m'.payload| == |m.payload| && m' == m.(payload := m'.payload)
    requires ms == map[m.csid := Reset(Complete(map[], m)[m.csid])] && StreamsOk(ms)
    requires At(input, pos, Fmt3Bytes(m', chunkSize))
    ensures [m'] <= Serve(ms, chunkSize, input, pos).messages
  {
    hide RecvMessage, At, Fmt3Bytes;
    assert Repeats(ms, m', 0);
    var next := Fmt3Reads(ms, chunkSize, m', 0, input, pos);
    assert m'.payload[..|m'.payload|] + Zeros(0) == m'.payload;
    ServeStep(ms, chunkSize, input, pos, Finished(ms, m', 0, next));
  }

  // ---------------------------------------------------------------- the exact condition

  lemma {:induction false} OwnCsidReceived(ms: Streams, chunkSize: nat, input: seq<Byte>, pos: nat)
    requires StreamsOk(ms) && Demux.OwnCsids(ms) && RecvMessage(ms, chunkSize, input, pos).Done?
    ensures var r := RecvMessage(ms, chunkSize, input, pos); r.streams[r.csid].csid == r.csid
    decreases |input| - pos
  {
    hide RecvChunk;
    var c := RecvChunk(ms, chunkSize, input, pos);
    ChunkKeepsStreams(ms, chunkSize, input, pos);
    Demux.ChunkCsid(ms, chunkSize, input, pos, c);
    if !c.stream.integral {
      OwnCsidReceived(ms[c.csid := c.stream], chunkSize, input, c.next);
    }
  }

  /** Of all the messages the sender encodes, at whatever chunk size, exactly these arrive
      unchanged on a new connection with every byte consumed. */
  lemma RoundTripIff(chunkSize: nat, m: Message)
    requires Encodable(m) && 0 < chunkSize
    ensures var bytes := SendBytes(m, chunkSize);
            var r := RecvMessage(map[], chunkSize, bytes, 0);
            (r.Done? && MessageOf(r.streams[r.csid]) == m && r.next == |bytes|)
            <==> m.csid <= 65559 && m.timestamp < 0xffffff && m.typeId < 256 && |m.payload| < 0x100_0000
                 && (|m.payload| <= chunkSize || |m.payload| % chunkSize != 0)
  {
    hide RecvChunk, RecvMessage, SendBytes;
    if m.csid > MAX_CSID {
      HighCsidLost(chunkSize, m);
    } else if |m.payload| >= LENGTHS {
      // nothing received is that long
    } else if m.timestamp >= NO_TIMESTAMP {
      LateTimestampLost(chunkSize, m);
      if RecvMessage(map[], chunkSize, SendBytes(m, chunkSize), 0).Done? {
        OwnCsidReceived(map[], chunkSize, SendBytes(m, chunkSize), 0);
      }
    } else if m.typeId >= 256 {
      TruncatedArrives(chunkSize, m);
    } else {
      RoundTripIffClean(map[], chunkSize, m);
    }
  }
}
