/** What the receive path of pkg/rtmp/connection/connection.go does to its state, as functions
    of the cached streams, the announced chunk size and the bytes still to come. */
module Receiving {
  import opened Bytes
  import opened ChunkHeaders

  /** The half-built message of one chunk stream (pkg/rtmp/chunk/stream.go). */
  datatype StreamState = StreamState(
    fmt: nat, csid: nat,
    timestamp: nat, messageLength: nat, typeId: nat, streamId: nat,
    data: seq<Byte>,
    firstChunk: bool, hasRead: nat, integral: bool, delta: nat, extended: bool)

  datatype RecvError =
    | EndOfInput
    | FirstChunkNotFull  // a stream must open with fmt 0
    | PreviousPartial    // fmt 0 while a message is half read
    | LengthMismatch     // another length while a message is half read
    | NoExtendedTimestamp
    | NilStream          // a panic: the rejected csids 65560 to 65599 leave a nil stream behind,
                         // which is dereferenced at once

  type Streams = map<nat, StreamState>

  /** `next` is the position of the first byte not consumed. */
  datatype Read = Read(stream: StreamState, next: nat) | ReadFail(error: RecvError)
  datatype Chunk = Chunk(csid: nat, stream: StreamState, next: nat) | ChunkFail(error: RecvError)
  datatype Received = Done(csid: nat, streams: Streams, next: nat) | Failed(error: RecvError)

  const MAX_CSID: nat := 65559

  function NewStream(fmt: nat, csid: nat): StreamState {
    StreamState(fmt, csid, 0, 0, 0, 0, [], true, 0, false, 0, false)
  }

  /** Between messages, or strictly inside one with its whole buffer allocated. */
  predicate StreamOk(m: StreamState) {
    && !m.integral && m.timestamp < U32
    && Bodied(m)
    && m.messageLength < 0x100_0000
  }

  predicate StreamsOk(ms: Streams) {
    forall k :: k in ms ==> StreamOk(ms[k])
  }

  // ---------------------------------------------------------------- one chunk

  /** The header fields of fmt 0, 1 and 2, and the unreachable delta of fmt 3. */
  function ReadFields(m: StreamState, fmt: nat, input: seq<Byte>, pos: nat): (r: StreamState)
    requires fmt <= 3 && pos + MessageSize(fmt) <= |input|
  {
    if fmt == 3 then
      if m.firstChunk && !m.extended then m.(timestamp := (m.timestamp + m.delta) % U32) else m
    else
      var time := BE24(input, pos);
      var ext := m.extended || time >= NO_TIMESTAMP;
      var m1 := m.(delta := time, extended := ext,
                   timestamp := if ext then m.timestamp else if fmt == 0 then time else (m.timestamp + time) % U32);
      if fmt == 2 then m1 else
      var m2 := m1.(messageLength := BE24(input, pos + 3), typeId := input[pos + 6]);
      if fmt == 1 then m2 else m2.(streamId := LE32(input, pos + 7))
  }

  /** Four more bytes, looked at and perhaps consumed, once the stream is extended. */
  function ReadExtended(m: StreamState, input: seq<Byte>, pos: nat): Read {
    if !m.extended then Read(m.(firstChunk := false), pos)
    else if pos + 4 > |input| then ReadFail(NoExtendedTimestamp)
    else
      var ext := BE32(input, pos) % 0x8000_0000;
      if !m.firstChunk && m.timestamp > 0 && m.timestamp != ext then Read(m.(firstChunk := false), pos)
      else Read(m.(firstChunk := false, timestamp := ext), pos + 4)
  }

  function ReadHeader(m: StreamState, fmt: nat, input: seq<Byte>, pos: nat): (r: Read)
    requires fmt <= 3 && pos <= |input|
    ensures r.Read? ==> pos <= r.next <= |input|
  {
    var next := pos + MessageSize(fmt);
    if m.firstChunk && fmt > 0 && !(m.csid == 2 && fmt == 1) then ReadFail(FirstChunkNotFull)
    else if m.hasRead > 0 && fmt == 0 then ReadFail(PreviousPartial)
    else if next > |input| then ReadFail(EndOfInput)
    else if fmt <= 1 && m.hasRead > 0 && m.messageLength != BE24(input, pos + 3) then ReadFail(LengthMismatch)
    else ReadExtended(ReadFields(m, fmt, input, pos), input, next)
  }

  function Zeros(n: nat): (s: seq<Byte>)
    ensures |s| == n
  {
    seq(n, _ => 0)
  }

  function Min(a: nat, b: nat): nat { if a < b then a else b }

  predicate Bodied(m: StreamState) {
    m.hasRead == 0 || (m.hasRead < m.messageLength && |m.data| == m.messageLength)
  }

  function ReadBody(m: StreamState, chunkSize: nat, input: seq<Byte>, pos: nat): (r: Read)
    requires Bodied(m) && pos <= |input|
    ensures r.Read? ==> pos <= r.next <= |input|
  {
    if m.messageLength == 0 then Read(m.(hasRead := 0, data := []), pos)
    else
      var size := Min(m.messageLength - m.hasRead, chunkSize);
      var data := if m.hasRead == 0 then Zeros(m.messageLength) else m.data;
      if pos + size > |input| then ReadFail(EndOfInput)
      else
        var read := m.hasRead + size;
        Read(m.(data := Overlay(input[pos..pos + size], m.hasRead, data), hasRead := read,
                integral := m.integral || read == m.messageLength), pos + size)
  }

  lemma HeaderKeepsPartial(m: StreamState, fmt: nat, input: seq<Byte>, pos: nat)
    requires fmt <= 3 && pos <= |input| && StreamOk(m) && ReadHeader(m, fmt, input, pos).Read?
    ensures var m' := ReadHeader(m, fmt, input, pos).stream;
            && StreamOk(m') && m'.hasRead == m.hasRead && m'.data == m.data && m'.csid == m.csid && m'.fmt == m.fmt
            && !m'.firstChunk && (m.extended ==> m'.extended)
  {
  }

  /** The header and body of one chunk of a stream. */
  function ReadChunk(m: StreamState, fmt: nat, chunkSize: nat, input: seq<Byte>, pos: nat): (r: Read)
    requires fmt <= 3 && pos <= |input| && StreamOk(m)
    ensures r.Read? ==> pos <= r.next <= |input|
  {
    var h := ReadHeader(m, fmt, input, pos);
    if h.ReadFail? then h
    else
      HeaderKeepsPartial(m, fmt, input, pos);
      ReadBody(h.stream, chunkSize, input, h.next)
  }

  /** What chunk stream csid is before a chunk of it arrives. */
  function Lookup(ms: Streams, fmt: nat, csid: nat): StreamState {
    if csid in ms then ms[csid] else NewStream(fmt, csid)
  }

  function RecvChunk(ms: Streams, chunkSize: nat, input: seq<Byte>, pos: nat): (r: Chunk)
    requires StreamsOk(ms)
    ensures r.Chunk? ==> pos < r.next <= |input|
  {
    var b := ParseBasic(input, pos);
    if b.Short? then ChunkFail(EndOfInput)
    else if b.csid !in ms && b.csid > MAX_CSID then ChunkFail(NilStream)
    else
      var r := ReadChunk(Lookup(ms, b.fmt, b.csid), b.fmt, chunkSize, input, b.next);
      if r.ReadFail? then ChunkFail(r.error) else Chunk(b.csid, r.stream, r.next)
  }

  /** A complete message, not yet reset. */
  predicate Completed(m: StreamState) {
    m.integral && 0 < m.messageLength < 0x100_0000 && m.hasRead == m.messageLength == |m.data| && m.timestamp < U32
  }

  /** A chunk leaves its stream inside a message or complete: never past its end. */
  lemma ChunkKeepsStreams(ms: Streams, chunkSize: nat, input: seq<Byte>, pos: nat)
    requires StreamsOk(ms) && RecvChunk(ms, chunkSize, input, pos).Chunk?
    ensures var r := RecvChunk(ms, chunkSize, input, pos);
            && (if r.stream.integral then Completed(r.stream) else StreamOk(r.stream))
            && (r.csid in ms && ms[r.csid].extended ==> r.stream.extended)
            && !r.stream.firstChunk
  {
    var b := ParseBasic(input, pos);
    HeaderKeepsPartial(Lookup(ms, b.fmt, b.csid), b.fmt, input, b.next);
  }

  // ---------------------------------------------------------------- one message

  /** Chunks until a message is complete. */
  function RecvMessage(ms: Streams, chunkSize: nat, input: seq<Byte>, pos: nat): (r: Received)
    requires StreamsOk(ms)
    ensures r.Done? ==> pos < r.next <= |input| && r.csid in r.streams && Completed(r.streams[r.csid])
    ensures r.Done? ==> forall k :: k in r.streams && k != r.csid ==> StreamOk(r.streams[k])
    decreases |input| - pos
  {
    var c := RecvChunk(ms, chunkSize, input, pos);
    if c.ChunkFail? then Failed(c.error)
    else
      ChunkKeepsStreams(ms, chunkSize, input, pos);
      var ms' := ms[c.csid := c.stream];
      if c.stream.integral then Done(c.csid, ms', c.next)
      else RecvMessage(ms', chunkSize, input, c.next)
  }

  /** What the caller does to a stream once it has handled its message. */
  function Reset(m: StreamState): StreamState { m.(hasRead := 0, integral := false) }

  // ---------------------------------------------------------------- the caller's loop

  datatype Message = Message(csid: nat, timestamp: nat, typeId: nat, streamId: nat, payload: seq<Byte>)

  function MessageOf(m: StreamState): Message {
    Message(m.csid, m.timestamp, m.typeId, m.streamId, m.data)
  }

  const SET_CHUNK_SIZE: nat := 1

  /** The only handler that reaches back into the receive path. */
  function Announced(chunkSize: nat, m: Message): nat {
    if m.typeId == SET_CHUNK_SIZE then FromBE(m.payload) % U32 else chunkSize
  }

  /** In the number of the protocol: type 1 sets the chunk size, no other type does. */
  lemma AnnouncedExactly(chunkSize: nat, m: Message)
    ensures Announced(chunkSize, m) == if m.typeId == 1 then FromBE(m.payload) % 0x1_0000_0000 else chunkSize
    ensures |m.payload| == 4 && m.typeId == 1 ==>
              Announced(chunkSize, m)
              == 0x100_0000 * m.payload[0] as int + 65536 * m.payload[1] as int + 256 * m.payload[2] as int
                 + m.payload[3] as int
  {
    FixedWidths(m.payload);
  }

  datatype Session = Session(messages: seq<Message>, streams: Streams, chunkSize: nat, pos: nat, error: RecvError)

  function Prepend(ms: seq<Message>, s: Session): Session { s.(messages := ms + s.messages) }

  /** Receive, handle and reset, until the first error. */
  function Serve(ms: Streams, chunkSize: nat, input: seq<Byte>, pos: nat): Session
    requires StreamsOk(ms)
    decreases |input| - pos
  {
    var r := RecvMessage(ms, chunkSize, input, pos);
    if r.Failed? then Session([], ms, chunkSize, pos, r.error)
    else
      var m := MessageOf(r.streams[r.csid]);
      Prepend([m], Serve(r.streams[r.csid := Reset(r.streams[r.csid])], Announced(chunkSize, m), input, r.next))
  }
}
