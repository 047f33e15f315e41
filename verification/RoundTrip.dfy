/** The receive path inverts the send path. */
module RoundTrip {
  import Words
  import opened Bytes
  import opened ChunkHeaders
  import opened Receiving
  import opened Sending

  /** Stream csid has no message under way and has never seen an extended timestamp. */
  predicate Idle(ms: Streams, csid: nat) {
    csid in ms ==> ms[csid].hasRead == 0 && !ms[csid].extended && ms[csid].csid == csid
  }

  /** The receive state of m's stream after k bytes of its payload. */
  function Partial(m: Message, fmt: nat, k: nat): StreamState
    requires k <= |m.payload|
  {
    StreamState(fmt, m.csid, m.timestamp, |m.payload|, m.typeId, m.streamId,
                m.payload[..k] + Zeros(|m.payload| - k), false, k, k == |m.payload|, m.timestamp, false)
  }

  // ---------------------------------------------------------------- chunk by chunk

  lemma FirstHeaderReads(old': StreamState, m: Message, input: seq<Byte>, pos: nat)
    requires StreamOk(old') && old'.hasRead == 0 && !old'.extended && old'.csid == m.csid && Sendable(m)
    requires At(input, pos, MessageBytes(FirstHeader(m)))
    ensures ReadHeader(old', 0, input, pos)
         == Read(old'.(timestamp := m.timestamp, messageLength := |m.payload|, typeId := m.typeId,
                       streamId := m.streamId, delta := m.timestamp, firstChunk := false), pos + 11)
  {
    FieldsRoundTrip(input, pos, FirstHeader(m));
  }

  lemma FirstBodyReads(m: Message, fmt: nat, read: StreamState, chunkSize: nat, input: seq<Byte>, pos: nat)
    requires Sendable(m) && 0 < chunkSize && read.hasRead == 0 && !read.integral
    requires read.(data := []) == Partial(m, fmt, 0).(data := [], integral := false)
    requires At(input, pos, m.payload[..Min(|m.payload|, chunkSize)])
    ensures var k := Min(|m.payload|, chunkSize);
            ReadBody(read, chunkSize, input, pos) == Read(Partial(m, fmt, k), pos + k)
  {
    var k := Min(|m.payload|, chunkSize);
    assert Overlay(m.payload[..k], 0, Zeros(|m.payload|)) == m.payload[..k] + Zeros(|m.payload| - k);
  }

  function FirstChunk(m: Message, chunkSize: nat): seq<Byte>
    requires ValidCsid(m.csid)
  {
    HeaderBytes(FirstHeader(m)) + m.payload[..Min(|m.payload|, chunkSize)]
  }

  lemma FirstChunkParts(chunkSize: nat, m: Message, input: seq<Byte>, pos: nat)
    requires ValidCsid(m.csid) && At(input, pos, FirstChunk(m, chunkSize))
    ensures ParseBasic(input, pos) == Basic(0, m.csid, pos + BasicSize(m.csid))
    ensures At(input, pos + BasicSize(m.csid), MessageBytes(FirstHeader(m)))
    ensures At(input, pos + BasicSize(m.csid) + 11, m.payload[..Min(|m.payload|, chunkSize)])
    ensures |FirstChunk(m, chunkSize)| == BasicSize(m.csid) + 11 + Min(|m.payload|, chunkSize)
  {
    var h := FirstHeader(m);
    AtJoin(input, pos, HeaderBytes(h), m.payload[..Min(|m.payload|, chunkSize)]);
    AtJoin(input, pos, BasicBytes(0, m.csid), MessageBytes(h));
    BasicRoundTrip(input, pos, 0, m.csid);
  }

  lemma FirstHeaderState(old': StreamState, m: Message, input: seq<Byte>, pos: nat) returns (read: StreamState)
    requires StreamOk(old') && old'.hasRead == 0 && !old'.extended && old'.csid == m.csid && Sendable(m)
    requires At(input, pos, MessageBytes(FirstHeader(m)))
    ensures ReadHeader(old', 0, input, pos) == Read(read, pos + 11)
    ensures read.hasRead == 0 && !read.integral
    ensures read.(data := []) == Partial(m, old'.fmt, 0).(data := [], integral := false)
  {
    FirstHeaderReads(old', m, input, pos);
    read := ReadHeader(old', 0, input, pos).stream;
  }

  lemma FirstChunkReads(ms: Streams, chunkSize: nat, m: Message, input: seq<Byte>, pos: nat)
    requires StreamsOk(ms) && Idle(ms, m.csid) && Sendable(m) && 0 < chunkSize
    requires At(input, pos, FirstChunk(m, chunkSize))
    ensures RecvChunk(ms, chunkSize, input, pos)
         == Chunk(m.csid, Partial(m, Lookup(ms, 0, m.csid).fmt, Min(|m.payload|, chunkSize)),
                  pos + |FirstChunk(m, chunkSize)|)
  {
    hide FirstChunk, At, ParseBasic, ReadHeader, ReadBody;
    var old' := Lookup(ms, 0, m.csid);
    var p := pos + BasicSize(m.csid);
    FirstChunkParts(chunkSize, m, input, pos);
    var read := FirstHeaderState(old', m, input, p);
    FirstBodyReads(m, old'.fmt, read, chunkSize, input, p + 11);
  }

  lemma NextBodyReads(m: Message, fmt: nat, k: nat, chunkSize: nat, input: seq<Byte>, pos: nat)
    requires Sendable(m) && 0 < k < |m.payload| && 0 < chunkSize
    requires At(input, pos, m.payload[k..k + Min(|m.payload| - k, chunkSize)])
    ensures var j := Min(|m.payload| - k, chunkSize);
            ReadBody(Partial(m, fmt, k), chunkSize, input, pos) == Read(Partial(m, fmt, k + j), pos + j)
  {
    var j := Min(|m.payload| - k, chunkSize);
    assert Overlay(m.payload[k..k + j], k, Partial(m, fmt, k).data) == m.payload[..k + j] + Zeros(|m.payload| - (k + j));
  }

  function NextChunk(m: Message, k: nat, chunkSize: nat): seq<Byte>
    requires ValidCsid(m.csid) && k <= |m.payload|
  {
    BasicBytes(3, m.csid) + m.payload[k..k + Min(|m.payload| - k, chunkSize)]
  }

  /** A continuation chunk moves its stream on by the bytes it carries. */
  lemma NextChunkReads(ms: Streams, chunkSize: nat, m: Message, fmt: nat, k: nat, input: seq<Byte>, pos: nat)
    requires StreamsOk(ms) && Sendable(m) && 0 < chunkSize && 0 < k < |m.payload|
    requires m.csid in ms && ms[m.csid] == Partial(m, fmt, k)
    requires At(input, pos, NextChunk(m, k, chunkSize))
    ensures RecvChunk(ms, chunkSize, input, pos)
         == Chunk(m.csid, Partial(m, fmt, k + Min(|m.payload| - k, chunkSize)), pos + |NextChunk(m, k, chunkSize)|)
  {
    hide At, ParseBasic, ReadBody;
    AtJoin(input, pos, BasicBytes(3, m.csid), m.payload[k..k + Min(|m.payload| - k, chunkSize)]);
    BasicRoundTrip(input, pos, 3, m.csid);
    NextBodyReads(m, fmt, k, chunkSize, input, pos + BasicSize(m.csid));
  }

  /** The chunk that completes a message. */
  lemma MessageEnd(ms: Streams, chunkSize: nat, input: seq<Byte>, pos: nat, c: Chunk)
    requires StreamsOk(ms) && c.Chunk? && c.stream.integral && RecvChunk(ms, chunkSize, input, pos) == c
    ensures RecvMessage(ms, chunkSize, input, pos) == Done(c.csid, ms[c.csid := c.stream], c.next)
  {
  }

  /** One incomplete chunk, then the rest of its message. */
  lemma MessageStep(ms: Streams, chunkSize: nat, input: seq<Byte>, pos: nat, c: Chunk, r: Received)
    requires StreamsOk(ms) && c.Chunk? && !c.stream.integral && RecvChunk(ms, chunkSize, input, pos) == c
    requires StreamsOk(ms[c.csid := c.stream])
    requires RecvMessage(ms[c.csid := c.stream], chunkSize, input, c.next) == r
    ensures RecvMessage(ms, chunkSize, input, pos) == r
  {
  }

  // ---------------------------------------------------------------- one message

  /** The chunks of m from byte k on. */
  function Rest(m: Message, k: nat, chunkSize: nat): seq<Byte>
    requires ValidCsid(m.csid) && 0 < chunkSize && k <= |m.payload|
  {
    ContinuationBytes(m.csid, m.payload[k..], chunkSize)
  }

  function SurplusSize(m: Message, k: nat, chunkSize: nat): nat
    requires 0 < chunkSize && k <= |m.payload|
  {
    if OnBoundary(|m.payload| - k, chunkSize) then BasicSize(m.csid) else 0
  }

  /** The continuation bytes are the next chunk and, at a full chunk, what follows it. */
  lemma RestSplits(m: Message, k: nat, chunkSize: nat)
    requires ValidCsid(m.csid) && 0 < chunkSize && k < |m.payload|
    ensures var n := |m.payload|;
            if n - k < chunkSize then Rest(m, k, chunkSize) == NextChunk(m, k, chunkSize)
            else Rest(m, k, chunkSize) == NextChunk(m, k, chunkSize) + Rest(m, k + chunkSize, chunkSize)
    ensures |m.payload| - k == chunkSize ==> Rest(m, k + chunkSize, chunkSize) == BasicBytes(3, m.csid)
  {
    var n := |m.payload|;
    if n - k < chunkSize {
      assert m.payload[k..n] == m.payload[k..];
    } else {
      assert m.payload[k..][..chunkSize] == m.payload[k..k + chunkSize];
      assert m.payload[k..][chunkSize..] == m.payload[k + chunkSize..];
    }
  }

  lemma RestAt(m: Message, k: nat, chunkSize: nat, input: seq<Byte>, pos: nat)
    requires ValidCsid(m.csid) && 0 < chunkSize && k < |m.payload| && At(input, pos, Rest(m, k, chunkSize))
    ensures At(input, pos, NextChunk(m, k, chunkSize))
    ensures k + chunkSize < |m.payload| ==>
              At(input, pos + |NextChunk(m, k, chunkSize)|, Rest(m, k + chunkSize, chunkSize))
  {
    RestSplits(m, k, chunkSize);
    if |m.payload| - k >= chunkSize { AtJoin(input, pos, NextChunk(m, k, chunkSize), Rest(m, k + chunkSize, chunkSize)); }
  }

  /** The part of the continuation bytes that is read. */
  function ReadSize(m: Message, k: nat, chunkSize: nat): int
    requires ValidCsid(m.csid) && 0 < chunkSize && k <= |m.payload|
  {
    |Rest(m, k, chunkSize)| - SurplusSize(m, k, chunkSize)
  }

  lemma ReadSizes(m: Message, k: nat, chunkSize: nat)
    requires ValidCsid(m.csid) && 0 < chunkSize && k < |m.payload|
    ensures ReadSize(m, k, chunkSize)
         == |NextChunk(m, k, chunkSize)|
            + if k + chunkSize < |m.payload| then ReadSize(m, k + chunkSize, chunkSize) else 0
  {
    var left := |m.payload| - k;
    RestSplits(m, k, chunkSize);
    if left >= chunkSize {
      assert OnBoundary(left, chunkSize) == OnBoundary(left - chunkSize, chunkSize);
      assert |m.payload| - (k + chunkSize) == left - chunkSize;
    }
  }

  lemma NextEnds(ms: Streams, chunkSize: nat, m: Message, fmt: nat, k: nat, input: seq<Byte>, pos: nat)
    requires StreamsOk(ms) && Sendable(m) && 0 < chunkSize && 0 < k < |m.payload| <= k + chunkSize
    requires m.csid in ms && ms[m.csid] == Partial(m, fmt, k) && At(input, pos, NextChunk(m, k, chunkSize))
    ensures RecvMessage(ms, chunkSize, input, pos)
         == Done(m.csid, ms[m.csid := Partial(m, fmt, |m.payload|)], pos + |NextChunk(m, k, chunkSize)|)
  {
    hide RecvChunk;
    NextChunkReads(ms, chunkSize, m, fmt, k, input, pos);
    MessageEnd(ms, chunkSize, input, pos,
               Chunk(m.csid, Partial(m, fmt, |m.payload|), pos + |NextChunk(m, k, chunkSize)|));
  }

  lemma NextGoesOn(ms: Streams, chunkSize: nat, m: Message, fmt: nat, k: nat, input: seq<Byte>, pos: nat, r: Received)
    requires StreamsOk(ms) && Sendable(m) && 0 < chunkSize && 0 < k && k + chunkSize < |m.payload|
    requires m.csid in ms && ms[m.csid] == Partial(m, fmt, k) && At(input, pos, NextChunk(m, k, chunkSize))
    requires StreamsOk(ms[m.csid := Partial(m, fmt, k + chunkSize)])
    requires r == RecvMessage(ms[m.csid := Partial(m, fmt, k + chunkSize)], chunkSize, input,
                              pos + |NextChunk(m, k, chunkSize)|)
    ensures RecvMessage(ms, chunkSize, input, pos) == r
  {
    hide RecvChunk;
    NextChunkReads(ms, chunkSize, m, fmt, k, input, pos);
    MessageStep(ms, chunkSize, input, pos,
                Chunk(m.csid, Partial(m, fmt, k + chunkSize), pos + |NextChunk(m, k, chunkSize)|), r);
  }

  lemma PartialOk(ms: Streams, m: Message, fmt: nat, k: nat)
    requires StreamsOk(ms) && Sendable(m) && k < |m.payload|
    ensures StreamsOk(ms[m.csid := Partial(m, fmt, k)])
  {
  }

  function Finished(ms: Streams, m: Message, fmt: nat, next: nat): Received {
    Done(m.csid, ms[m.csid := Partial(m, fmt, |m.payload|)], next)
  }

  /** Reading the continuation chunks of m from byte k on stops before the surplus chunk. */
  lemma {:induction false} ContinuationReads(ms: Streams, chunkSize: nat, m: Message, fmt: nat, k: nat,
                                             input: seq<Byte>, pos: nat)
    requires StreamsOk(ms) && Sendable(m) && 0 < chunkSize && 0 < k < |m.payload|
    requires m.csid in ms && ms[m.csid] == Partial(m, fmt, k) && At(input, pos, Rest(m, k, chunkSize))
    ensures 0 <= ReadSize(m, k, chunkSize)
    ensures RecvMessage(ms, chunkSize, input, pos) == Finished(ms, m, fmt, pos + ReadSize(m, k, chunkSize))
    decreases |m.payload| - k
  {
    hide RecvChunk;
    RestAt(m, k, chunkSize, input, pos);
    ReadSizes(m, k, chunkSize);
    if |m.payload| <= k + chunkSize {
      NextEnds(ms, chunkSize, m, fmt, k, input, pos);
    } else {
      var ms' := ms[m.csid := Partial(m, fmt, k + chunkSize)];
      var p := pos + |NextChunk(m, k, chunkSize)|;
      PartialOk(ms, m, fmt, k + chunkSize);
      ContinuationReads(ms', chunkSize, m, fmt, k + chunkSize, input, p);
      var r := Finished(ms', m, fmt, p + ReadSize(m, k + chunkSize, chunkSize));
      NextGoesOn(ms, chunkSize, m, fmt, k, input, pos, r);
      FinishedTwice(ms, m, fmt, k + chunkSize, p + ReadSize(m, k + chunkSize, chunkSize));
    }
  }

  lemma FinishedTwice(ms: Streams, m: Message, fmt: nat, k: nat, next: nat)
    requires k <= |m.payload|
    ensures Finished(ms[m.csid := Partial(m, fmt, k)], m, fmt, next) == Finished(ms, m, fmt, next)
  {
    var done := Partial(m, fmt, |m.payload|);
    assert ms[m.csid := Partial(m, fmt, k)][m.csid := done] == ms[m.csid := done];
  }

  /** The state after a whole message. */
  function Complete(ms: Streams, m: Message): Streams {
    ms[m.csid := Partial(m, Lookup(ms, 0, m.csid).fmt, |m.payload|)]
  }

  lemma SendSplits(m: Message, chunkSize: nat)
    requires ValidCsid(m.csid) && 0 < chunkSize
    ensures if |m.payload| <= chunkSize
            then SendBytes(m, chunkSize) == FirstChunk(m, chunkSize) && Surplus(m, chunkSize) == []
            else SendBytes(m, chunkSize) == FirstChunk(m, chunkSize) + Rest(m, chunkSize, chunkSize)
                 && |Surplus(m, chunkSize)| == SurplusSize(m, chunkSize, chunkSize)
  {
    if |m.payload| <= chunkSize {
      assert m.payload[..|m.payload|] == m.payload;
    } else {
      BoundaryIsMultiple(|m.payload| - chunkSize, chunkSize);
      DivStep(|m.payload|, chunkSize);
    }
  }

  lemma FirstEnds(ms: Streams, chunkSize: nat, m: Message, input: seq<Byte>, pos: nat)
    requires StreamsOk(ms) && Idle(ms, m.csid) && Sendable(m) && |m.payload| <= chunkSize
    requires At(input, pos, FirstChunk(m, chunkSize))
    ensures RecvMessage(ms, chunkSize, input, pos) == Done(m.csid, Complete(ms, m), pos + |FirstChunk(m, chunkSize)|)
  {
    hide RecvChunk;
    FirstChunkReads(ms, chunkSize, m, input, pos);
    MessageEnd(ms, chunkSize, input, pos,
               Chunk(m.csid, Partial(m, Lookup(ms, 0, m.csid).fmt, |m.payload|), pos + |FirstChunk(m, chunkSize)|));
  }

  lemma FirstGoesOn(ms: Streams, chunkSize: nat, m: Message, fmt: nat, input: seq<Byte>, pos: nat, r: Received)
    requires StreamsOk(ms) && Idle(ms, m.csid) && Sendable(m) && 0 < chunkSize < |m.payload|
    requires fmt == Lookup(ms, 0, m.csid).fmt && At(input, pos, FirstChunk(m, chunkSize))
    requires StreamsOk(ms[m.csid := Partial(m, fmt, chunkSize)])
    requires r == RecvMessage(ms[m.csid := Partial(m, fmt, chunkSize)], chunkSize, input,
                              pos + |FirstChunk(m, chunkSize)|)
    ensures RecvMessage(ms, chunkSize, input, pos) == r
  {
    hide RecvChunk;
    FirstChunkReads(ms, chunkSize, m, input, pos);
    MessageStep(ms, chunkSize, input, pos,
                Chunk(m.csid, Partial(m, fmt, chunkSize), pos + |FirstChunk(m, chunkSize)|), r);
  }

  /** Receiving one sent message, whatever follows it, yields the message and stops exactly
      before the surplus chunk, if the splitter appended one. */
  lemma MessageRoundTrip(ms: Streams, chunkSize: nat, m: Message, input: seq<Byte>, pos: nat)
    requires StreamsOk(ms) && Idle(ms, m.csid) && Sendable(m) && 0 < chunkSize
    requires At(input, pos, SendBytes(m, chunkSize))
    ensures RecvMessage(ms, chunkSize, input, pos)
         == Done(m.csid, Complete(ms, m), pos + |SendBytes(m, chunkSize)| - |Surplus(m, chunkSize)|)
    ensures MessageOf(Complete(ms, m)[m.csid]) == m
  {
    hide RecvChunk, FirstChunk, Rest, At;
    assert m.payload[..|m.payload|] + Zeros(0) == m.payload;
    SendSplits(m, chunkSize);
    if |m.payload| <= chunkSize {
      FirstEnds(ms, chunkSize, m, input, pos);
    } else {
      AtJoin(input, pos, FirstChunk(m, chunkSize), Rest(m, chunkSize, chunkSize));
      LongRoundTrip(ms, chunkSize, m, input, pos);
    }
  }

  lemma LongRoundTrip(ms: Streams, chunkSize: nat, m: Message, input: seq<Byte>, pos: nat)
    requires StreamsOk(ms) && Idle(ms, m.csid) && Sendable(m) && 0 < chunkSize < |m.payload|
    requires At(input, pos, FirstChunk(m, chunkSize))
    requires At(input, pos + |FirstChunk(m, chunkSize)|, Rest(m, chunkSize, chunkSize))
    ensures 0 <= ReadSize(m, chunkSize, chunkSize)
    ensures RecvMessage(ms, chunkSize, input, pos)
         == Done(m.csid, Complete(ms, m), pos + |FirstChunk(m, chunkSize)| + ReadSize(m, chunkSize, chunkSize))
  {
    hide RecvChunk;
    var fmt := Lookup(ms, 0, m.csid).fmt;
    var p := pos + |FirstChunk(m, chunkSize)|;
    PartialOk(ms, m, fmt, chunkSize);
    ContinuationReads(ms[m.csid := Partial(m, fmt, chunkSize)], chunkSize, m, fmt, chunkSize, input, p);
    var r := Finished(ms, m, fmt, p + ReadSize(m, chunkSize, chunkSize));
    FinishedTwice(ms, m, fmt, chunkSize, r.next);
    FirstGoesOn(ms, chunkSize, m, fmt, input, pos, r);
  }

  /** What MessageRoundTrip leaves unread is the surplus chunk. */
  lemma SurplusUnread(m: Message, chunkSize: nat, input: seq<Byte>, pos: nat)
    requires ValidCsid(m.csid) && 0 < chunkSize && At(input, pos, SendBytes(m, chunkSize))
    ensures |Surplus(m, chunkSize)| <= |SendBytes(m, chunkSize)|
    ensures At(input, pos + |SendBytes(m, chunkSize)| - |Surplus(m, chunkSize)|, Surplus(m, chunkSize))
  {
    SendSplits(m, chunkSize);
    if |m.payload| > chunkSize && !SplitsCleanly(|m.payload|, chunkSize) {
      AtJoin(input, pos, FirstChunk(m, chunkSize), Rest(m, chunkSize, chunkSize));
      BoundaryIsMultiple(|m.payload| - chunkSize, chunkSize);
      DivStep(|m.payload|, chunkSize);
      RestEnds(m, chunkSize, chunkSize, input, pos + |FirstChunk(m, chunkSize)|);
    }
  }

  lemma {:induction false} RestEnds(m: Message, k: nat, chunkSize: nat, input: seq<Byte>, pos: nat)
    requires ValidCsid(m.csid) && 0 < chunkSize && k < |m.payload| && OnBoundary(|m.payload| - k, chunkSize)
    requires At(input, pos, Rest(m, k, chunkSize))
    ensures BasicSize(m.csid) <= |Rest(m, k, chunkSize)|
    ensures At(input, pos + |Rest(m, k, chunkSize)| - BasicSize(m.csid), BasicBytes(3, m.csid))
    decreases |m.payload| - k
  {
    RestSplits(m, k, chunkSize);
    AtJoin(input, pos, NextChunk(m, k, chunkSize), Rest(m, k + chunkSize, chunkSize));
    if k + chunkSize < |m.payload| {
      RestEnds(m, k + chunkSize, chunkSize, input, pos + |NextChunk(m, k, chunkSize)|);
    }
  }

  /** When one message round-trips: exactly when its length splits cleanly. A longer multiple
      of the chunk size is still decoded, but leaves an fmt 3 basic header unread. */
  lemma RoundTripIffClean(streams: Streams, chunkSize: nat, m: Message)
    requires StreamsOk(streams) && Idle(streams, m.csid) && Sendable(m) && 0 < chunkSize
    ensures var bytes := SendBytes(m, chunkSize);
            var r := RecvMessage(streams, chunkSize, bytes, 0);
            && r.Done? && MessageOf(r.streams[r.csid]) == m
            && (r.next == |bytes| <==> SplitsCleanly(|m.payload|, chunkSize))
            && (r.next < |bytes| ==> bytes[r.next..] == BasicBytes(3, m.csid))
  {
    hide RecvChunk;
    var bytes := SendBytes(m, chunkSize);
    assert bytes[0..|bytes|] == bytes;
    MessageRoundTrip(streams, chunkSize, m, bytes, 0);
    SurplusUnread(m, chunkSize, bytes, 0);
  }

  // ---------------------------------------------------------------- whole streams

  function SendAll(ms: seq<Message>, chunkSize: nat): seq<Byte>
    requires 0 < chunkSize && forall m :: m in ms ==> ValidCsid(m.csid)
  {
    if ms == [] then [] else SendBytes(ms[0], chunkSize) + SendAll(ms[1..], chunkSize)
  }

  /** No stream has a message under way or has seen an extended timestamp. */
  predicate AllIdle(ms: Streams) {
    StreamsOk(ms) && forall k :: k in ms ==> Idle(ms, k)
  }

  predicate CleanMessages(ms: seq<Message>, chunkSize: nat)
    requires 0 < chunkSize
  {
    forall m :: m in ms ==> Sendable(m) && SplitsCleanly(|m.payload|, chunkSize)
  }

  lemma ServeStep(streams: Streams, chunkSize: nat, input: seq<Byte>, pos: nat, r: Received)
    requires StreamsOk(streams) && RecvMessage(streams, chunkSize, input, pos) == r && r.Done?
    ensures StreamsOk(r.streams[r.csid := Reset(r.streams[r.csid])])
    ensures var m := MessageOf(r.streams[r.csid]);
            Serve(streams, chunkSize, input, pos)
            == Prepend([m], Serve(r.streams[r.csid := Reset(r.streams[r.csid])], Announced(chunkSize, m), input, r.next))
  {
  }

  lemma ServeOne(streams: Streams, chunkSize: nat, m: Message, input: seq<Byte>, pos: nat) returns (streams': Streams)
    requires AllIdle(streams) && Sendable(m) && 0 < chunkSize && SplitsCleanly(|m.payload|, chunkSize)
    requires At(input, pos, SendBytes(m, chunkSize))
    ensures AllIdle(streams')
    ensures Serve(streams, chunkSize, input, pos)
         == Prepend([m], Serve(streams', Announced(chunkSize, m), input, pos + |SendBytes(m, chunkSize)|))
  {
    hide RecvChunk;
    MessageRoundTrip(streams, chunkSize, m, input, pos);
    var r := Done(m.csid, Complete(streams, m), pos + |SendBytes(m, chunkSize)|);
    ServeStep(streams, chunkSize, input, pos, r);
    streams' := r.streams[m.csid := Reset(r.streams[m.csid])];
    CompleteIdle(streams, m);
  }

  lemma CompleteIdle(streams: Streams, m: Message)
    requires AllIdle(streams) && Sendable(m)
    ensures AllIdle(Complete(streams, m)[m.csid := Reset(Complete(streams, m)[m.csid])])
  {
  }

  lemma PrependTwice(ms: seq<Message>, s: Session)
    requires ms != []
    ensures Prepend([ms[0]], Prepend(ms[1..], s)) == Prepend(ms, s)
  {
    assert [ms[0]] + (ms[1..] + s.messages) == ms + s.messages;
  }

  /** Stream round trip: serving the bytes of any list of messages that split cleanly yields
      exactly that list and goes on with what follows them. */
  lemma {:induction false} StreamRoundTrip(streams: Streams, chunkSize: nat, ms: seq<Message>, input: seq<Byte>, pos: nat)
    returns (streams': Streams)
    requires AllIdle(streams) && 0 < chunkSize && CleanMessages(ms, chunkSize)
    requires forall m :: m in ms ==> m.typeId != SET_CHUNK_SIZE
    requires At(input, pos, SendAll(ms, chunkSize))
    ensures AllIdle(streams')
    ensures Serve(streams, chunkSize, input, pos)
         == Prepend(ms, Serve(streams', chunkSize, input, pos + |SendAll(ms, chunkSize)|))
    decreases |ms|
  {
    hide RecvChunk, RecvMessage, SendBytes;
    if ms == [] {
      streams' := streams;
    } else {
      var bytes := SendBytes(ms[0], chunkSize);
      AtJoin(input, pos, bytes, SendAll(ms[1..], chunkSize));
      var mid := ServeOne(streams, chunkSize, ms[0], input, pos);
      streams' := StreamRoundTrip(mid, chunkSize, ms[1..], input, pos + |bytes|);
      PrependTwice(ms, Serve(streams', chunkSize, input, pos + |SendAll(ms, chunkSize)|));
    }
  }

  lemma ServeNothing(streams: Streams, chunkSize: nat, input: seq<Byte>)
    requires StreamsOk(streams)
    ensures Serve(streams, chunkSize, input, |input|) == Session([], streams, chunkSize, |input|, EndOfInput)
  {
  }

  /** Nothing is left over: the session ends waiting for more input, every byte consumed. */
  lemma StreamConsumed(chunkSize: nat, ms: seq<Message>)
    requires 0 < chunkSize && CleanMessages(ms, chunkSize)
    requires forall m :: m in ms ==> m.typeId != SET_CHUNK_SIZE
    ensures var bytes := SendAll(ms, chunkSize);
            var s := Serve(map[], chunkSize, bytes, 0);
            s.messages == ms && s.pos == |bytes| && s.error == EndOfInput && s.chunkSize == chunkSize
  {
    hide RecvChunk;
    var bytes := SendAll(ms, chunkSize);
    assert bytes[0..|bytes|] == bytes;
    var streams := StreamRoundTrip(map[], chunkSize, ms, bytes, 0);
    ServeNothing(streams, chunkSize, bytes);
  }
}
