/** What publishers send and the server's own sender never does: messages opened by fmt 1, 2 and 3
    (sections 5.3.1.2.2 to 5.3.1.2.4 of the RTMP Specification 1.0) and extended timestamps
    (section 5.3.1.3). The numbers of the format stand here as the specification gives them. */
module Publishing {
  import opened Bytes
  import opened ChunkHeaders
  import opened Receiving
  import RoundTrip

  /** The header that opens a message. */
  datatype Opening = Opening(fmt: nat, m: Message)

  /** The last message of every chunk stream. */
  type Last = map<nat, Message>

  function Previous(last: Last, csid: nat): Message {
    if csid in last then last[csid] else Message(csid, 0, 0, 0, [])
  }

  /** The timestamp field: absolute in fmt 0, the time since the previous message otherwise. */
  function TimeField(last: Last, o: Opening): nat {
    if o.fmt == 0 then o.m.timestamp else (o.m.timestamp - Previous(last, o.m.csid).timestamp) % 0x1_0000_0000
  }

  predicate Plain(m: Message) {
    && 2 <= m.csid <= 65559 && m.timestamp < 0x1_0000_0000 && m.typeId < 256 && m.streamId < 0x1_0000_0000
    && 0 < |m.payload| < 0x100_0000
  }

  /** What a header of the given fmt leaves out must be as in the previous message. Only fmt 0 can
      open a stream, but for fmt 1 on csid 2. */
  predicate Allowed(last: Last, o: Opening) {
    var before := Previous(last, o.m.csid);
    && Plain(o.m) && o.fmt <= 3 && TimeField(last, o) < 0xffffff
    && (o.fmt == 0 || o.m.csid in last || (o.m.csid == 2 && o.fmt == 1))
    && (o.fmt >= 1 ==> o.m.streamId == before.streamId)
    && (o.fmt >= 2 ==> |o.m.payload| == |before.payload| && o.m.typeId == before.typeId)
    && (o.fmt == 3 ==> o.m.timestamp == before.timestamp)
  }

  function OpeningBytes(last: Last, o: Opening): seq<Byte>
    requires Allowed(last, o)
  {
    HeaderBytes(Header(o.fmt, o.m.csid, TimeField(last, o), |o.m.payload|, o.m.typeId, o.m.streamId))
  }

  /** The chunks that continue a message, each with the same bytes behind its basic header. */
  function Continuation(csid: nat, ext: seq<Byte>, rest: seq<Byte>, chunkSize: nat): seq<Byte>
    requires ValidCsid(csid) && 0 < chunkSize
    decreases |rest|
  {
    if rest == [] then []
    else
      var k := Min(|rest|, chunkSize);
      BasicBytes(3, csid) + ext + rest[..k] + Continuation(csid, ext, rest[k..], chunkSize)
  }

  function Body(csid: nat, ext: seq<Byte>, payload: seq<Byte>, chunkSize: nat): seq<Byte>
    requires ValidCsid(csid) && 0 < chunkSize
  {
    var k := Min(|payload|, chunkSize);
    payload[..k] + Continuation(csid, ext, payload[k..], chunkSize)
  }

  /** One message: its opening header, and its payload cut into chunks. */
  function Published(last: Last, o: Opening, chunkSize: nat): seq<Byte>
    requires Allowed(last, o) && 0 < chunkSize
  {
    OpeningBytes(last, o) + Body(o.m.csid, [], o.m.payload, chunkSize)
  }

  // ---------------------------------------------------------------- headers

  /** The outcome of a message header. Where it is read, the fields that its fmt carries are the
      numbers that stand there, the time of fmt 1 and 2 counts from the last one, and everything
      that it does not carry stays. */
  lemma HeaderOutcome(m: StreamState, fmt: nat, input: seq<Byte>, pos: nat)
    requires fmt <= 3 && pos <= |input| && m.timestamp < 0x1_0000_0000
    ensures var r := ReadHeader(m, fmt, input, pos);
            var size := if fmt == 0 then 11 else if fmt == 1 then 7 else if fmt == 2 then 3 else 0;
            if m.firstChunk && fmt != 0 && (m.csid != 2 || fmt != 1) then r == ReadFail(FirstChunkNotFull)
            else if 0 < m.hasRead && fmt == 0 then r == ReadFail(PreviousPartial)
            else if |input| < pos + size then r == ReadFail(EndOfInput)
            else if 0 < m.hasRead && fmt == 1 && m.messageLength != BE24(input, pos + 3)
            then r == ReadFail(LengthMismatch)
            else
              var time := if fmt == 3 then 0 else BE24(input, pos);
              if m.extended || time == 0xffffff then
                if |input| < pos + size + 4 then r == ReadFail(NoExtendedTimestamp)
                else
                  var ext := BE32(input, pos + size) % 0x8000_0000;
                  var taken := m.firstChunk || m.timestamp == 0 || m.timestamp == ext;
                  && r.Read? && r.stream.extended && Carried(m, fmt, input, pos, r.stream)
                  && r.next == pos + size + (if taken then 4 else 0)
                  && r.stream.timestamp == if taken then ext else m.timestamp
              else
                && r.Read? && !r.stream.extended && Carried(m, fmt, input, pos, r.stream) && r.next == pos + size
                && r.stream.timestamp == if fmt == 0 then time else (m.timestamp + time) % 0x1_0000_0000
  {
  }

  /** Everything but the timestamp. */
  predicate Carried(m: StreamState, fmt: nat, input: seq<Byte>, pos: nat, x: StreamState)
    requires fmt == 0 ==> pos + 11 <= |input|
    requires fmt == 1 ==> pos + 7 <= |input|
  {
    && x.csid == m.csid && x.hasRead == m.hasRead && x.data == m.data && x.integral == m.integral && !x.firstChunk
    && x.messageLength == (if fmt <= 1 then BE24(input, pos + 3) else m.messageLength)
    && x.typeId == (if fmt <= 1 then input[pos + 6] else m.typeId)
    && x.streamId == (if fmt == 0 then LE32(input, pos + 7) else m.streamId)
  }

  /** A chunk stream that is not known yet must open with fmt 0, but for fmt 1 on csid 2. */
  lemma MustOpenFull(ms: Streams, chunkSize: nat, input: seq<Byte>, pos: nat)
    requires StreamsOk(ms) && ParseBasic(input, pos).Basic?
    requires var b := ParseBasic(input, pos);
             b.csid !in ms && b.csid <= 65559 && b.fmt != 0 && !(b.csid == 2 && b.fmt == 1)
    ensures RecvChunk(ms, chunkSize, input, pos) == ChunkFail(FirstChunkNotFull)
    ensures RecvMessage(ms, chunkSize, input, pos) == Failed(FirstChunkNotFull)
  {
    hide ParseBasic;
  }

  // ---------------------------------------------------------------- one message

  /** Stream x holds the first k bytes of a payload. */
  function Holding(x: StreamState, payload: seq<Byte>, k: nat): StreamState
    requires k <= |payload|
  {
    x.(data := payload[..k] + Zeros(|payload| - k), hasRead := k, integral := k == |payload|)
  }

  /** A stream whose header said what m is. */
  predicate Heads(x: StreamState, m: Message) {
    && x.csid == m.csid && x.timestamp == m.timestamp && x.typeId == m.typeId && x.streamId == m.streamId
    && x.messageLength == |m.payload| && !x.firstChunk
  }

  /** The bytes that follow a continuing basic header: none, or the extended timestamp again. */
  predicate Repeats(x: StreamState, ext: seq<Byte>) {
    if x.extended then |ext| == 4 && BE32(ext, 0) % 0x8000_0000 == x.timestamp else ext == []
  }

  lemma PieceLands(payload: seq<Byte>, k: nat, j: nat)
    requires k + j <= |payload|
    ensures Overlay(payload[k..k + j], k, payload[..k] + Zeros(|payload| - k))
            == payload[..k + j] + Zeros(|payload| - (k + j))
    ensures k == 0 ==> payload[..k] + Zeros(|payload| - k) == Zeros(|payload|)
  {
  }

  lemma BodyReads(x: StreamState, payload: seq<Byte>, k: nat, chunkSize: nat, input: seq<Byte>, pos: nat)
    requires k < |payload| == x.messageLength && 0 < chunkSize
    requires At(input, pos, payload[k..k + Min(|payload| - k, chunkSize)])
    ensures var j := Min(|payload| - k, chunkSize);
            && (0 < k ==>
                  ReadBody(Holding(x, payload, k), chunkSize, input, pos) == Read(Holding(x, payload, k + j), pos + j))
            && (k == 0 && x.hasRead == 0 && !x.integral ==>
                  ReadBody(x, chunkSize, input, pos) == Read(Holding(x, payload, j), pos + j))
  {
    hide Overlay, Zeros;
    PieceLands(payload, k, Min(|payload| - k, chunkSize));
  }

  lemma ContinuingHeaderReads(x: StreamState, ext: seq<Byte>, input: seq<Byte>, pos: nat)
    requires !x.firstChunk && Repeats(x, ext) && At(input, pos, ext) && pos <= |input| && x.timestamp < U32
    ensures ReadHeader(x, 3, input, pos) == Read(x, pos + |ext|)
  {
    if x.extended {
      forall i: nat | i < 4 ensures input[pos + i] == ext[i] { AtIndex(input, pos, ext, i); }
      assert input[pos + 0] == ext[0];
    }
  }

  /** One continuing chunk. */
  lemma NextReads(ms: Streams, chunkSize: nat, x: StreamState, m: Message, ext: seq<Byte>, k: nat,
                  input: seq<Byte>, pos: nat)
    requires StreamsOk(ms) && Plain(m) && Heads(x, m) && Repeats(x, ext) && 0 < chunkSize && 0 < k < |m.payload|
    requires m.csid in ms && ms[m.csid] == Holding(x, m.payload, k)
    requires At(input, pos, BasicBytes(3, m.csid) + ext + m.payload[k..k + Min(|m.payload| - k, chunkSize)])
    ensures RecvChunk(ms, chunkSize, input, pos)
         == Chunk(m.csid, Holding(x, m.payload, k + Min(|m.payload| - k, chunkSize)),
                  pos + BasicSize(m.csid) + |ext| + Min(|m.payload| - k, chunkSize))
  {
    hide At, ParseBasic, ReadBody, ReadHeader, BasicBytes;
    var j := Min(|m.payload| - k, chunkSize);
    var piece := m.payload[k..k + j];
    var p := pos + BasicSize(m.csid);
    AtJoin(input, pos, BasicBytes(3, m.csid) + ext, piece);
    AtJoin(input, pos, BasicBytes(3, m.csid), ext);
    BasicRoundTrip(input, pos, 3, m.csid);
    ContinuingHeaderReads(Holding(x, m.payload, k), ext, input, p);
    BodyReads(x, m.payload, k, chunkSize, input, p + |ext|);
  }

  function Whole(ms: Streams, x: StreamState, m: Message, next: nat): Received {
    Done(m.csid, ms[m.csid := Holding(x, m.payload, |m.payload|)], next)
  }

  lemma WholeTwice(ms: Streams, x: StreamState, m: Message, y: StreamState, next: nat)
    ensures Whole(ms[m.csid := y], x, m, next) == Whole(ms, x, m, next)
  {
    var z := Holding(x, m.payload, |m.payload|);
    assert ms[m.csid := y][m.csid := z] == ms[m.csid := z];
  }

  lemma HoldingOk(ms: Streams, x: StreamState, m: Message, k: nat)
    requires StreamsOk(ms) && Plain(m) && Heads(x, m) && 0 < k < |m.payload|
    ensures StreamsOk(ms[m.csid := Holding(x, m.payload, k)])
  {
  }

  lemma NothingContinues(csid: nat, ext: seq<Byte>, chunkSize: nat)
    requires ValidCsid(csid) && 0 < chunkSize
    ensures Continuation(csid, ext, [], chunkSize) == []
  {
  }

  lemma ContinuationSplits(m: Message, ext: seq<Byte>, k: nat, chunkSize: nat)
    requires ValidCsid(m.csid) && 0 < chunkSize && k < |m.payload|
    ensures var j := Min(|m.payload| - k, chunkSize);
            var piece := BasicBytes(3, m.csid) + ext + m.payload[k..k + j];
            Continuation(m.csid, ext, m.payload[k..], chunkSize)
            == piece + Continuation(m.csid, ext, m.payload[k + j..], chunkSize)
  {
    var j := Min(|m.payload| - k, chunkSize);
    assert m.payload[k..][..j] == m.payload[k..k + j] && m.payload[k..][j..] == m.payload[k + j..];
  }

  /** After a chunk that brought the first k bytes, the rest of the message. */
  lemma {:induction false} RestReads(ms: Streams, chunkSize: nat, x: StreamState, m: Message, ext: seq<Byte>, k: nat,
                                     input: seq<Byte>, pos: nat, next: nat)
    requires StreamsOk(ms) && Plain(m) && Heads(x, m) && Repeats(x, ext) && 0 < chunkSize && 0 < k <= |m.payload|
    requires RecvChunk(ms, chunkSize, input, pos) == Chunk(m.csid, Holding(x, m.payload, k), next)
    requires At(input, next, Continuation(m.csid, ext, m.payload[k..], chunkSize))
    ensures RecvMessage(ms, chunkSize, input, pos)
         == Whole(ms, x, m, next + |Continuation(m.csid, ext, m.payload[k..], chunkSize)|)
    decreases |m.payload| - k
  {
    hide RecvChunk, RecvMessage, At, BasicBytes, Heads, Repeats, StreamsOk, Continuation;
    var c := Chunk(m.csid, Holding(x, m.payload, k), next);
    if k == |m.payload| {
      NothingContinues(m.csid, ext, chunkSize);
      assert m.payload[k..] == [];
      RoundTrip.MessageEnd(ms, chunkSize, input, pos, c);
    } else {
      var j := Min(|m.payload| - k, chunkSize);
      var mid := ms[m.csid := c.stream];
      HoldingOk(ms, x, m, k);
      ContinuationSplits(m, ext, k, chunkSize);
      var head := BasicBytes(3, m.csid) + ext + m.payload[k..k + j];
      AtJoin(input, next, head, Continuation(m.csid, ext, m.payload[k + j..], chunkSize));
      NextReads(mid, chunkSize, x, m, ext, k, input, next);
      RestReads(mid, chunkSize, x, m, ext, k + j, input, next, next + |head|);
      var end := next + |head| + |Continuation(m.csid, ext, m.payload[k + j..], chunkSize)|;
      WholeTwice(ms, x, m, c.stream, end);
      RoundTrip.MessageStep(ms, chunkSize, input, pos, c, Whole(ms, x, m, end));
    }
  }

  /** A whole message, once its opening header is read into x. */
  lemma MessageReads(ms: Streams, chunkSize: nat, x: StreamState, m: Message, ext: seq<Byte>, fmt: nat,
                     input: seq<Byte>, pos: nat, body: nat)
    requires StreamsOk(ms) && Plain(m) && Heads(x, m) && Repeats(x, ext) && 0 < chunkSize
    requires x.hasRead == 0 && !x.integral
    requires ParseBasic(input, pos) == Basic(fmt, m.csid, pos + BasicSize(m.csid)) && fmt <= 3
    requires ReadHeader(Lookup(ms, fmt, m.csid), fmt, input, pos + BasicSize(m.csid)) == Read(x, body)
    requires At(input, body, Body(m.csid, ext, m.payload, chunkSize))
    ensures RecvMessage(ms, chunkSize, input, pos) == Whole(ms, x, m, body + |Body(m.csid, ext, m.payload, chunkSize)|)
  {
    hide At, ParseBasic, ReadBody, ReadHeader, BasicBytes, RecvMessage;
    var k := Min(|m.payload|, chunkSize);
    AtJoin(input, body, m.payload[..k], Continuation(m.csid, ext, m.payload[k..], chunkSize));
    assert m.payload[0..0 + Min(|m.payload| - 0, chunkSize)] == m.payload[..k];
    BodyReads(x, m.payload, 0, chunkSize, input, body);
    assert RecvChunk(ms, chunkSize, input, pos) == Chunk(m.csid, Holding(x, m.payload, k), body + k);
    RestReads(ms, chunkSize, x, m, ext, k, input, pos, body + k);
  }

  // ---------------------------------------------------------------- plain timestamps

  /** Between messages, every stream stands at its last message and has no extended timestamp. */
  ghost predicate Synced(ms: Streams, last: Last) {
    && ms.Keys == last.Keys && StreamsOk(ms)
    && forall k :: k in ms ==>
         last[k].csid == k && Heads(ms[k], last[k]) && !ms[k].extended && ms[k].hasRead == 0 && !ms[k].integral
  }

  /** The time field counts from the previous timestamp, whichever way the clock went around. */
  lemma TimeAdds(t: nat, before: nat)
    requires t < U32 && before < U32
    ensures (before + (t - before) % U32) % U32 == t
  {
    if t < before { assert (t - before) % U32 == t - before + U32; }
  }

  lemma HeaderParts(h: Header, input: seq<Byte>, pos: nat)
    requires ValidCsid(h.csid) && h.fmt <= 3 && At(input, pos, HeaderBytes(h))
    ensures ParseBasic(input, pos) == Basic(h.fmt, h.csid, pos + BasicSize(h.csid))
    ensures At(input, pos + BasicSize(h.csid), MessageBytes(h))
  {
    hide ToBE, MessageBytes, At, ParseBasic, BasicBytes;
    AtJoin(input, pos, BasicBytes(h.fmt, h.csid), MessageBytes(h));
    BasicRoundTrip(input, pos, h.fmt, h.csid);
  }

  lemma HeaderLength(h: Header)
    requires ValidCsid(h.csid) && h.fmt <= 3
    ensures |HeaderBytes(h)| == BasicSize(h.csid) + MessageSize(h.fmt)
  {
  }

  lemma AtEnds(input: seq<Byte>, pos: nat, bytes: seq<Byte>)
    requires At(input, pos, bytes)
    ensures pos + |bytes| <= |input|
  {
  }

  lemma OpeningReads(ms: Streams, last: Last, o: Opening, input: seq<Byte>, pos: nat) returns (x: StreamState)
    requires Synced(ms, last) && Allowed(last, o) && At(input, pos, OpeningBytes(last, o))
    ensures ParseBasic(input, pos) == Basic(o.fmt, o.m.csid, pos + BasicSize(o.m.csid))
    ensures ReadHeader(Lookup(ms, o.fmt, o.m.csid), o.fmt, input, pos + BasicSize(o.m.csid))
         == Read(x, pos + |OpeningBytes(last, o)|)
    ensures Heads(x, o.m) && !x.extended && x.hasRead == 0 && !x.integral
  {
    hide ParseBasic, MessageBytes, BasicBytes, HeaderBytes, At, BE24, LE32;
    hide Lookup, Heads, Synced, ReadHeader, TimeField;
    var h := Header(o.fmt, o.m.csid, TimeField(last, o), |o.m.payload|, o.m.typeId, o.m.streamId);
    var p := pos + BasicSize(o.m.csid);
    HeaderParts(h, input, pos);
    FieldsRoundTrip(input, p, h);
    assert pos + BasicSize(o.m.csid) + MessageSize(o.fmt) == pos + |OpeningBytes(last, o)| by { HeaderLength(h); }
    assert p + MessageSize(o.fmt) <= |input| by { AtEnds(input, p, MessageBytes(h)); }
    x := FieldsMean(ms, last, o, input, p);
  }

  lemma FieldsMean(ms: Streams, last: Last, o: Opening, input: seq<Byte>, pos: nat) returns (x: StreamState)
    requires Synced(ms, last) && Allowed(last, o) && pos + MessageSize(o.fmt) <= |input|
    requires o.fmt <= 2 ==> BE24(input, pos) == TimeField(last, o)
    requires o.fmt <= 1 ==> BE24(input, pos + 3) == |o.m.payload| && input[pos + 6] == o.m.typeId
    requires o.fmt == 0 ==> LE32(input, pos + 7) == o.m.streamId
    ensures ReadHeader(Lookup(ms, o.fmt, o.m.csid), o.fmt, input, pos) == Read(x, pos + MessageSize(o.fmt))
    ensures Heads(x, o.m) && !x.extended && x.hasRead == 0 && !x.integral
  {
    TimeAdds(o.m.timestamp, Previous(last, o.m.csid).timestamp);
    var m := Lookup(ms, o.fmt, o.m.csid);
    HeaderOutcome(m, o.fmt, input, pos);
    hide BE24, LE32, ReadHeader;
    x := ReadHeader(m, o.fmt, input, pos).stream;
  }

  lemma PublishedReads(ms: Streams, last: Last, o: Opening, chunkSize: nat, input: seq<Byte>, pos: nat)
    returns (x: StreamState)
    requires Synced(ms, last) && Allowed(last, o) && 0 < chunkSize && At(input, pos, Published(last, o, chunkSize))
    ensures RecvMessage(ms, chunkSize, input, pos) == Whole(ms, x, o.m, pos + |Published(last, o, chunkSize)|)
    ensures Heads(x, o.m) && !x.extended
  {
    hide At, RecvMessage, ParseBasic, ReadHeader, OpeningBytes, Body;
    var head := OpeningBytes(last, o);
    AtJoin(input, pos, head, Body(o.m.csid, [], o.m.payload, chunkSize));
    x := OpeningReads(ms, last, o, input, pos);
    MessageReads(ms, chunkSize, x, o.m, [], o.fmt, input, pos, pos + |head|);
  }

  // ---------------------------------------------------------------- whole streams

  predicate AllAllowed(last: Last, os: seq<Opening>)
    decreases |os|
  {
    os != [] ==> Allowed(last, os[0]) && AllAllowed(last[os[0].m.csid := os[0].m], os[1..])
  }

  function PublishedAll(last: Last, os: seq<Opening>, chunkSize: nat): seq<Byte>
    requires AllAllowed(last, os) && 0 < chunkSize
    decreases |os|
  {
    if os == [] then []
    else Published(last, os[0], chunkSize) + PublishedAll(last[os[0].m.csid := os[0].m], os[1..], chunkSize)
  }

  function MessagesIn(os: seq<Opening>): seq<Message> {
    if os == [] then [] else [os[0].m] + MessagesIn(os[1..])
  }

  lemma SyncedOk(ms: Streams, last: Last)
    requires Synced(ms, last)
    ensures StreamsOk(ms)
  {
  }

  lemma ServeOne(ms: Streams, last: Last, o: Opening, chunkSize: nat, input: seq<Byte>, pos: nat) returns (ms': Streams)
    requires Synced(ms, last) && Allowed(last, o) && 0 < chunkSize && At(input, pos, Published(last, o, chunkSize))
    requires o.m.typeId != 1
    ensures Synced(ms', last[o.m.csid := o.m])
    ensures Serve(ms, chunkSize, input, pos)
         == Prepend([o.m], Serve(ms', chunkSize, input, pos + |Published(last, o, chunkSize)|))
  {
    hide At, RecvMessage, Published;
    var x := PublishedReads(ms, last, o, chunkSize, input, pos);
    assert o.m.payload[..|o.m.payload|] + Zeros(0) == o.m.payload;
    var r := Whole(ms, x, o.m, pos + |Published(last, o, chunkSize)|);
    RoundTrip.ServeStep(ms, chunkSize, input, pos, r);
    ms' := r.streams[r.csid := Reset(r.streams[r.csid])];
  }

  /** A publisher may open every message with any fmt that its last message on that chunk stream
      allows, on any number of chunk streams: what is served is exactly what it published. */
  lemma {:induction false} PublishedServed(ms: Streams, last: Last, os: seq<Opening>, chunkSize: nat,
                                           input: seq<Byte>, pos: nat)
    returns (ms': Streams, last': Last)
    requires Synced(ms, last) && AllAllowed(last, os) && 0 < chunkSize
    requires At(input, pos, PublishedAll(last, os, chunkSize))
    requires forall o :: o in os ==> o.m.typeId != 1
    ensures Synced(ms', last')
    ensures StreamsOk(ms) && StreamsOk(ms')
    ensures Serve(ms, chunkSize, input, pos)
         == Prepend(MessagesIn(os), Serve(ms', chunkSize, input, pos + |PublishedAll(last, os, chunkSize)|))
    decreases |os|
  {
    hide At, Serve, Published, Synced, Allowed;
    assert StreamsOk(ms) by { SyncedOk(ms, last); }
    if os == [] {
      ms', last' := ms, last;
    } else {
      var first := Published(last, os[0], chunkSize);
      var next := last[os[0].m.csid := os[0].m];
      AtJoin(input, pos, first, PublishedAll(next, os[1..], chunkSize));
      var mid := ServeOne(ms, last, os[0], chunkSize, input, pos);
      ms', last' := PublishedServed(mid, next, os[1..], chunkSize, input, pos + |first|);
      SyncedOk(ms', last');
      var s := Serve(ms', chunkSize, input, pos + |PublishedAll(last, os, chunkSize)|);
      assert [os[0].m] + (MessagesIn(os[1..]) + s.messages) == MessagesIn(os) + s.messages;
    }
  }

  /** The same for a new connection: every byte is consumed. */
  lemma PublisherServed(os: seq<Opening>, chunkSize: nat)
    requires AllAllowed(map[], os) && 0 < chunkSize && forall o :: o in os ==> o.m.typeId != 1
    ensures var bytes := PublishedAll(map[], os, chunkSize);
            var s := Serve(map[], chunkSize, bytes, 0);
            s.messages == MessagesIn(os) && s.pos == |bytes| && s.error == EndOfInput && s.chunkSize == chunkSize
  {
    hide Serve;
    var bytes := PublishedAll(map[], os, chunkSize);
    assert bytes[0..|bytes|] == bytes;
    var ms', last' := PublishedServed(map[], map[], os, chunkSize, bytes, 0);
    RoundTrip.ServeNothing(ms', chunkSize, bytes);
  }

  // ---------------------------------------------------------------- extended timestamps

  /** A message with an extended timestamp, which follows the basic header of every chunk. */
  function PublishedExtended(m: Message, chunkSize: nat): seq<Byte>
    requires Plain(m) && 0 < chunkSize
  {
    HeaderBytes(Header(0, m.csid, 0xffffff, |m.payload|, m.typeId, m.streamId)) + ToBE(m.timestamp, 4)
    + Body(m.csid, ToBE(m.timestamp, 4), m.payload, chunkSize)
  }

  lemma ExtendedTime(t: nat)
    requires t < U32
    ensures BE32(ToBE(t, 4), 0) == t
  {
    Pow256Small();
    FitsExactly(t, 4, true);
    FixedWidths(ToBE(t, 4));
  }

  lemma ExtendedOpeningReads(ms: Streams, m: Message, input: seq<Byte>, pos: nat)
    requires StreamsOk(ms) && Plain(m)
    requires At(input, pos, HeaderBytes(Header(0, m.csid, 0xffffff, |m.payload|, m.typeId, m.streamId)))
    requires At(input, pos + BasicSize(m.csid) + 11, ToBE(m.timestamp, 4))
    ensures ParseBasic(input, pos) == Basic(0, m.csid, pos + BasicSize(m.csid))
    ensures ExtendedFieldsAt(m, input, pos + BasicSize(m.csid))
  {
    hide ToBE, MessageBytes, BE24, BE32, LE32, At, ParseBasic;
    var p := pos + BasicSize(m.csid);
    HeaderParts(Header(0, m.csid, 0xffffff, |m.payload|, m.typeId, m.streamId), input, pos);
    ExtendedFieldsRead(m, input, p);
    ExtendedTimeAt(m.timestamp, input, p + 11);
  }

  /** The four bytes behind a header. */
  lemma ExtendedTimeAt(t: nat, input: seq<Byte>, pos: nat)
    requires t < U32 && At(input, pos, ToBE(t, 4))
    ensures pos + 4 <= |input| && BE32(input, pos) == t
  {
    ExtendedTime(t);
    hide ToBE;
    var ext := ToBE(t, 4);
    AtIndex(input, pos, ext, 0);
    AtIndex(input, pos, ext, 1);
    AtIndex(input, pos, ext, 2);
    AtIndex(input, pos, ext, 3);
  }

  /** A fmt 0 header of m with an extended timestamp. */
  predicate ExtendedFieldsAt(m: Message, input: seq<Byte>, pos: nat) {
    && pos + 15 <= |input| && BE24(input, pos) == 0xffffff && BE24(input, pos + 3) == |m.payload|
    && input[pos + 6] == m.typeId && LE32(input, pos + 7) == m.streamId && BE32(input, pos + 11) == m.timestamp
  }

  lemma ExtendedFieldsMean(y: StreamState, m: Message, input: seq<Byte>, pos: nat) returns (x: StreamState)
    requires Plain(m) && y.csid == m.csid && y.hasRead == 0 && !y.integral && y.timestamp < U32
    requires ExtendedFieldsAt(m, input, pos)
    ensures var t := m.timestamp % 0x8000_0000;
            var taken := y.firstChunk || y.timestamp == 0 || y.timestamp == t;
            && ReadHeader(y, 0, input, pos) == Read(x, pos + if taken then 15 else 11)
            && Heads(x, m.(timestamp := if taken then t else y.timestamp))
            && x.extended && x.hasRead == 0 && !x.integral
  {
    HeaderOutcome(y, 0, input, pos);
    hide BE24, LE32, BE32, ReadHeader;
    x := ReadHeader(y, 0, input, pos).stream;
  }

  lemma ExtendedFieldsRead(m: Message, input: seq<Byte>, pos: nat)
    requires Plain(m)
    requires At(input, pos, MessageBytes(Header(0, m.csid, 0xffffff, |m.payload|, m.typeId, m.streamId)))
    ensures pos + 11 <= |input| && BE24(input, pos) == 0xffffff && BE24(input, pos + 3) == |m.payload|
    ensures input[pos + 6] == m.typeId && LE32(input, pos + 7) == m.streamId
  {
    var s := MessageBytes(Header(0, m.csid, 0xffffff, |m.payload|, m.typeId, m.streamId));
    Pow256Small();
    hide ToBE, ToLE, At, BE24, LE32;
    assert s[0..3] == ToBE(0xffffff, 3) && s[3..6] == ToBE(|m.payload|, 3) && s[6..7] == ToBE(m.typeId, 1);
    assert s[7..11] == ToLE(m.streamId, 4);
    hide MessageBytes;
    FieldReads(input, pos, s, 0, 0xffffff, 3, true);
    FieldReads(input, pos, s, 3, |m.payload|, 3, true);
    FieldReads(input, pos, s, 6, m.typeId, 1, true);
    FieldReads(input, pos, s, 7, m.streamId, 4, false);
  }

  /** The first message of a chunk stream may carry an extended timestamp: it arrives whole, with
      the low 31 bits of the timestamp, so unchanged exactly when that is below 2^31. */
  lemma ExtendedServed(ms: Streams, m: Message, chunkSize: nat, input: seq<Byte>, pos: nat)
    requires StreamsOk(ms) && m.csid !in ms && Plain(m) && 0 < chunkSize
    requires At(input, pos, PublishedExtended(m, chunkSize))
    ensures var r := RecvMessage(ms, chunkSize, input, pos);
            && r.Done? && MessageOf(r.streams[r.csid]) == m.(timestamp := m.timestamp % 0x8000_0000)
            && r.next == pos + |PublishedExtended(m, chunkSize)|
  {
    hide At, RecvMessage, ParseBasic, ReadHeader, BasicBytes, MessageBytes, Body;
    var head := HeaderBytes(Header(0, m.csid, 0xffffff, |m.payload|, m.typeId, m.streamId));
    var ext := ToBE(m.timestamp, 4);
    AtJoin(input, pos, head + ext, Body(m.csid, ext, m.payload, chunkSize));
    AtJoin(input, pos, head, ext);
    ExtendedOpeningReads(ms, m, input, pos);
    var x := ExtendedFieldsMean(Lookup(ms, 0, m.csid), m, input, pos + BasicSize(m.csid));
    ExtendedTime(m.timestamp);
    var m' := m.(timestamp := m.timestamp % 0x8000_0000);
    MessageReads(ms, chunkSize, x, m', ext, 0, input, pos, pos + |head| + 4);
    assert m.payload[..|m.payload|] + Zeros(0) == m.payload;
  }

  /** Later messages on that stream: the four bytes are taken for a timestamp only when the last
      one is 0 or the same. Otherwise the message keeps the old timestamp and opens with the four
      bytes of its own. */
  lemma ExtendedAgainIff(m: StreamState, fmt: nat, input: seq<Byte>, pos: nat)
    requires fmt <= 3 && pos <= |input| && !m.firstChunk && m.extended && m.timestamp < 0x1_0000_0000
    requires ReadHeader(m, fmt, input, pos).Read?
    ensures var size := if fmt == 0 then 11 else if fmt == 1 then 7 else if fmt == 2 then 3 else 0;
            var r := ReadHeader(m, fmt, input, pos);
            && pos + size + 4 <= |input|
            && var ext := BE32(input, pos + size) % 0x8000_0000;
               && (r.next == pos + size + 4 <==> m.timestamp == 0 || m.timestamp == ext)
               && (r.next == pos + size <==> !(m.timestamp == 0 || m.timestamp == ext))
               && (r.stream.timestamp == ext <==> m.timestamp == 0 || m.timestamp == ext)
  {
    HeaderOutcome(m, fmt, input, pos);
  }

  lemma OneChunkBody(csid: nat, ext: seq<Byte>, payload: seq<Byte>, chunkSize: nat)
    requires ValidCsid(csid) && 0 < chunkSize && |payload| <= chunkSize
    ensures Body(csid, ext, payload, chunkSize) == payload
  {
    NothingContinues(csid, ext, chunkSize);
    assert payload[..|payload|] == payload && payload[|payload|..] == [];
  }

  /** What stream k is once m, which set an extended timestamp, has been handled. */
  predicate StandsAt(ms: Streams, m: Message) {
    && m.csid in ms && Heads(ms[m.csid], m) && ms[m.csid].extended && ms[m.csid].hasRead == 0 && !ms[m.csid].integral
  }

  /** The reached case: on such a stream a message of one chunk, whose own timestamp is another
      one, is served with the old timestamp and with its four timestamp bytes as payload. */
  lemma ExtendedAgainCut(ms: Streams, last: Message, m: Message, chunkSize: nat, input: seq<Byte>, pos: nat)
    requires StreamsOk(ms) && StandsAt(ms, last) && Plain(m) && Plain(last) && m.csid == last.csid
    requires last.timestamp < 0x8000_0000 && last.timestamp != 0 && last.timestamp != m.timestamp % 0x8000_0000
    requires |m.payload| <= chunkSize && At(input, pos, PublishedExtended(m, chunkSize))
    ensures var r := RecvMessage(ms, chunkSize, input, pos);
            && r.Done? && r.next == pos + |PublishedExtended(m, chunkSize)| - 4
            && MessageOf(r.streams[r.csid])
               == m.(timestamp := last.timestamp, payload := (ToBE(m.timestamp, 4) + m.payload)[..|m.payload|])
  {
    hide At, RecvMessage, ParseBasic, ReadHeader, BasicBytes, MessageBytes, Body, ExtendedFieldsAt;
    var head := HeaderBytes(Header(0, m.csid, 0xffffff, |m.payload|, m.typeId, m.streamId));
    var ext, rep := ToBE(m.timestamp, 4), ToBE(last.timestamp, 4);
    var read := m.(timestamp := last.timestamp, payload := (ext + m.payload)[..|m.payload|]);
    OneChunkBody(m.csid, ext, m.payload, chunkSize);
    OneChunkBody(m.csid, rep, read.payload, chunkSize);
    assert PublishedExtended(m, chunkSize) == head + (ext + m.payload);
    assert ext + m.payload == read.payload + (ext + m.payload)[|m.payload|..];
    AtJoin(input, pos, head, ext + m.payload);
    AtJoin(input, pos + |head|, ext, m.payload);
    AtJoin(input, pos + |head|, read.payload, (ext + m.payload)[|m.payload|..]);
    ExtendedOpeningReads(ms, m, input, pos);
    var x := ExtendedFieldsMean(ms[m.csid], m, input, pos + BasicSize(m.csid));
    ExtendedTime(last.timestamp);
    MessageReads(ms, chunkSize, x, read, rep, 0, input, pos, pos + |head|);
    assert read.payload[..|read.payload|] + Zeros(0) == read.payload;
  }
}
