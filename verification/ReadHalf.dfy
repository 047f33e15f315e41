/** The read half of a connection, field by field: the receive path of
    pkg/rtmp/connection/connection.go over the cached streams of pkg/rtmp/chunk/stream.go. */
module ReadHalves {
  import opened Bytes
  import opened ChunkHeaders
  import opened Receiving

  class Stream {
    var fmt: nat
    var csid: nat
    var timestamp: nat
    var messageLength: nat
    var typeId: nat
    var streamId: nat
    var data: array<Byte>
    var firstChunk: bool
    var hasRead: nat
    var integral: bool
    var delta: nat
    var extended: bool

    constructor (fmt: nat, csid: nat)
      ensures View() == NewStream(fmt, csid) && fresh(data)
    {
      this.fmt, this.csid := fmt, csid;
      timestamp, messageLength, typeId, streamId := 0, 0, 0, 0;
      firstChunk, hasRead, integral, delta, extended := true, 0, false, 0, false;
      data := new Byte[0];
    }

    /** The stream's value. */
    function View(): StreamState
      reads this, data
    {
      StreamState(fmt, csid, timestamp, messageLength, typeId, streamId, data[..],
                  firstChunk, hasRead, integral, delta, extended)
    }

    method Reset()
      modifies this
      ensures View() == Receiving.Reset(old(View())) && data == old(data)
    {
      hasRead := 0;
      integral := false;
    }
  }

  datatype Status = Ok | Err(error: RecvError)
  datatype Got = Got(stream: Stream) | NotGot(error: RecvError)

  /** The slices of a header that was read at `start` decode to the numbers found there. */
  lemma HeaderNumbers(input: seq<Byte>, start: nat, hdr: seq<Byte>)
    requires At(input, start, hdr)
    ensures |hdr| >= 3 ==> FromBE(hdr[0..3]) == BE24(input, start)
    ensures |hdr| >= 7 ==> FromBE(hdr[3..6]) == BE24(input, start + 3) && FromBE(hdr[6..7]) == input[start + 6]
    ensures |hdr| >= 11 ==> FromLE(hdr[7..11]) == LE32(input, start + 7)
  {
    hide FromBE, FromLE, At;
    AtIndices(input, start, hdr);
    if |hdr| >= 3 { FixedWidths(hdr[0..3]); }
    if |hdr| >= 7 {
      FixedWidths(hdr[3..6]);
      FixedWidths(hdr[6..7]);
    }
    if |hdr| >= 11 { FixedWidths(hdr[7..11]); }
  }

  lemma AtIndices(input: seq<Byte>, start: nat, bytes: seq<Byte>)
    requires At(input, start, bytes)
    ensures start + |bytes| <= |input| && forall i :: 0 <= i < |bytes| ==> bytes[i] == input[start + i]
  {
    forall i | 0 <= i < |bytes| ensures bytes[i] == input[start + i] { AtIndex(input, start, bytes, i); }
  }

  method Make(n: nat) returns (buf: array<Byte>)
    ensures fresh(buf) && buf[..] == Zeros(n)
  {
    buf := new Byte[n](_ => 0);
  }

  class ReadHalf {
    const input: seq<Byte>
    var pos: nat
    var remoteChunkSize: nat
    var messages: map<nat, Stream>

    /** The value of every cached stream. */
    ghost var view: Streams
    /** The chunk stream each cached stream object and each buffer belongs to: no two chunk
        streams share either. */
    ghost var owner: map<object, nat>

    constructor (input: seq<Byte>, chunkSize: nat)
      ensures Valid() && pos <= |input| && view == map[] && owner == map[] && pos == 0 && this.input == input
      ensures remoteChunkSize == if chunkSize < 128 then 128 else chunkSize
    {
      this.input := input;
      pos, messages, view, owner := 0, map[], map[], map[];
      remoteChunkSize := if chunkSize < 128 then 128 else chunkSize;
    }

    ghost predicate Owns(k: nat, o: object)
      reads this`owner
    {
      o in owner && owner[o] == k
    }

    ghost predicate Valid()
      reads this`messages, this`view, this`owner, owner.Keys
    {
      && this !in owner && view.Keys == messages.Keys
      && forall k :: k in messages ==>
           Owns(k, messages[k]) && Owns(k, messages[k].data) && messages[k].View() == view[k]
    }

    /** Exactly n bytes, or none: a short read consumes what is left and fails. */
    method Read(n: nat) returns (ok: bool, bytes: seq<Byte>)
      requires pos <= |input|
      modifies this`pos
      ensures pos <= |input|
      ensures ok <==> old(pos) + n <= |input|
      ensures ok ==> pos == old(pos) + n && bytes == input[old(pos)..pos]
      ensures !ok ==> pos == |input|
    {
      if pos + n <= |input| {
        ok, bytes := true, input[pos..pos + n];
        pos := pos + n;
      } else {
        ok, bytes := false, [];
        pos := |input|;
      }
    }

    method ReadChunkBasicHeader() returns (b: Basic)
      requires pos <= |input|
      modifies this`pos
      ensures pos <= |input| && b == ParseBasic(input, old(pos))
      ensures b.Basic? ==> pos == b.next
    {
      var ok, first := Read(1);
      if !ok {
        return Short;
      }
      var h := BytesAsUint32(first, true);
      FixedWidths(first);
      var fmt := h / 64;
      var csid := h % 64;
      if csid == 0 || csid == 1 {
        var ok', more := Read(1 + csid);
        if !ok' {
          return Short;
        }
        var id := BytesAsUint32(more, false);
        FixedWidths(more);
        return Basic(fmt, id + 64, pos);
      }
      return Basic(fmt, csid, pos);
    }

    method ReadChunkMessageHeader(msg: Stream, tmpFmt: nat) returns (s: Status)
      requires tmpFmt <= 3 && pos <= |input|
      modifies this`pos, msg
      ensures msg.data == old(msg.data) && pos <= |input|
      ensures var r := ReadHeader(old(msg.View()), tmpFmt, input, old(pos));
              if r.Read? then s == Ok && msg.View() == r.stream && pos == r.next else s == Err(r.error)
    {
      if msg.firstChunk && tmpFmt > 0 {
        if !(msg.csid == 2 && tmpFmt == 1) {
          return Err(FirstChunkNotFull);
        }
      }
      if msg.hasRead > 0 && tmpFmt == 0 {
        return Err(PreviousPartial);
      }
      ghost var start := pos;
      var ok, hdr := Read(MessageSize(tmpFmt));
      if !ok {
        return Err(EndOfInput);
      }
      s := DecodeFields(msg, tmpFmt, hdr, start);
      if s != Ok {
        return;
      }
      s := ReadExtendedTimestamp(msg);
    }

    /** The fields of a message header whose bytes were read at `start`. */
    method DecodeFields(msg: Stream, tmpFmt: nat, hdr: seq<Byte>, ghost start: nat) returns (s: Status)
      requires tmpFmt <= 3 && At(input, start, hdr) && |hdr| == MessageSize(tmpFmt)
      modifies msg
      ensures msg.data == old(msg.data)
      ensures if tmpFmt <= 1 && old(msg.hasRead) > 0 && old(msg.messageLength) != BE24(input, start + 3)
              then s == Err(LengthMismatch)
              else s == Ok && msg.View() == ReadFields(old(msg.View()), tmpFmt, input, start)
    {
      hide FromBE, FromLE, BE24, LE32, At;
      HeaderNumbers(input, start, hdr);
      if tmpFmt <= 2 {
        var timestamp := BytesAsUint32(hdr[0..3], true);
        msg.delta := timestamp;
        if timestamp >= NO_TIMESTAMP {
          msg.extended := true;
        }
        if !msg.extended {
          if tmpFmt == 0 {
            msg.timestamp := timestamp;
          } else {
            msg.timestamp := (msg.timestamp + timestamp) % U32;
          }
        }
        if tmpFmt <= 1 {
          var payloadLength := BytesAsUint32(hdr[3..6], true);
          if msg.hasRead > 0 && msg.messageLength != payloadLength {
            return Err(LengthMismatch);
          }
          msg.messageLength := payloadLength;
          msg.typeId := BytesAsUint32(hdr[6..7], true);
          if tmpFmt == 0 {
            msg.streamId := BytesAsUint32(hdr[7..11], false);
          }
        }
      } else if msg.firstChunk && !msg.extended {
        msg.timestamp := (msg.timestamp + msg.delta) % U32;
      }
      return Ok;
    }

    /** The last part of the header: a peek at four bytes that are perhaps a timestamp. */
    method ReadExtendedTimestamp(msg: Stream) returns (s: Status)
      requires pos <= |input|
      modifies this`pos, msg`timestamp, msg`firstChunk
      ensures pos <= |input|
      ensures var r := ReadExtended(old(msg.View()), input, old(pos));
              if r.Read? then s == Ok && msg.View() == r.stream && pos == r.next else s == Err(r.error)
    {
      if msg.extended {
        if pos + 4 > |input| {
          return Err(NoExtendedTimestamp);
        }
        var peeked := input[pos..pos + 4];
        var ext := BytesAsUint32(peeked, true);
        FixedWidths(peeked);
        ext := ext % 0x8000_0000;
        if !(!msg.firstChunk && msg.timestamp > 0 && msg.timestamp != ext) {
          pos := pos + 4;
          msg.timestamp := ext;
        }
      }
      msg.firstChunk := false;
      return Ok;
    }

    method ReadChunkMessageBody(msg: Stream) returns (s: Status)
      requires pos <= |input| && Bodied(msg.View())
      modifies this`pos, msg, msg.data
      ensures msg.data == old(msg.data) || fresh(msg.data)
      ensures pos <= |input|
      ensures var r := ReadBody(old(msg.View()), remoteChunkSize, input, old(pos));
              if r.Read? then s == Ok && msg.View() == r.stream && pos == r.next else s == Err(r.error)
    {
      hide Overlay, Zeros;
      if msg.messageLength == 0 {
        msg.hasRead := 0;
        msg.data := new Byte[0];
        return Ok;
      }
      var size := msg.messageLength - msg.hasRead;
      if size > remoteChunkSize {
        size := remoteChunkSize;
      }
      if msg.hasRead == 0 {
        msg.data := Make(msg.messageLength);
      }
      var ok, bytes := Read(size);
      if !ok {
        return Err(EndOfInput);
      }
      CopyInto(msg.data, msg.hasRead, bytes);
      msg.hasRead := msg.hasRead + size;
      if msg.hasRead == msg.messageLength {
        msg.integral := true;
      }
      return Ok;
    }

    lemma KeysAgree()
      requires Valid()
      ensures view.Keys == messages.Keys && this !in owner
    {
    }

    /** The cached stream of csid, made on its first chunk. */
    method Cached(tmpFmt: nat, csid: nat) returns (msg: Stream)
      requires Valid()
      modifies this`messages, this`view, this`owner
      ensures Valid() && csid in messages && messages[csid] == msg
      ensures view == old(view)[csid := Lookup(old(view), tmpFmt, csid)]
      ensures fresh(owner.Keys - old(owner.Keys))
    {
      hide Stream.View, NewStream;
      if csid in messages {
        msg := messages[csid];
        assert view == view[csid := view[csid]];
      } else {
        msg := new Stream(tmpFmt, csid);
        messages := messages[csid := msg];
        view := view[csid := NewStream(tmpFmt, csid)];
        owner := owner[msg := csid][msg.data := csid];
        forall k | k in messages
          ensures Owns(k, messages[k]) && Owns(k, messages[k].data) && messages[k].View() == view[k]
        {
          if k != csid {
            assert old(Owns(k, messages[k]) && Owns(k, messages[k].data));
          }
        }
      }
    }

    /** Header and body of one chunk of a cached stream. */
    method ReadInto(msg: Stream, tmpFmt: nat) returns (s: Status)
      requires tmpFmt <= 3 && pos <= |input| && StreamOk(msg.View())
      modifies this`pos, msg, msg.data
      ensures msg.data == old(msg.data) || fresh(msg.data)
      ensures pos <= |input|
      ensures var r := ReadChunk(old(msg.View()), tmpFmt, remoteChunkSize, input, old(pos));
              if r.Read? then s == Ok && msg.View() == r.stream && pos == r.next else s == Err(r.error)
    {
      hide ReadHeader, ReadBody, StreamOk;
      ghost var before := msg.View();
      ghost var start := pos;
      s := ReadChunkMessageHeader(msg, tmpFmt);
      if s == Ok {
        HeaderLeavesBodied(before, tmpFmt, input, start);
        s := ReadChunkMessageBody(msg);
      }
    }

    /** One chunk of a cached stream: other streams keep their state and their buffers. */
    method ReadCached(csid: nat, tmpFmt: nat) returns (s: Status)
      requires tmpFmt <= 3 && Valid() && pos <= |input| && csid in messages && StreamOk(view[csid])
      modifies this`pos, this`view, this`owner, owner.Keys
      ensures Valid() && fresh(owner.Keys - old(owner.Keys))
      ensures var r := ReadChunk(old(view[csid]), tmpFmt, remoteChunkSize, input, old(pos));
              if r.Read? then s == Ok && view == old(view)[csid := r.stream] && pos == r.next else s == Err(r.error)
    {
      hide ReadChunk, StreamOk, Stream.View;
      var msg := messages[csid];
      s := ReadInto(msg, tmpFmt);
      view := view[csid := msg.View()];
      owner := owner[msg.data := csid];
      forall k | k in messages
        ensures Owns(k, messages[k]) && Owns(k, messages[k].data) && messages[k].View() == view[k]
      {
        if k != csid {
          assert old(Owns(k, messages[k]) && Owns(k, messages[k].data));
        }
      }
    }

    /** One chunk, whichever stream it belongs to. */
    method ReceiveChunk() returns (r: Got)
      requires Valid() && pos <= |input| && StreamsOk(view)
      modifies this`pos, this`messages, this`view, this`owner, owner.Keys
      ensures fresh(owner.Keys - old(owner.Keys))
      ensures var c := RecvChunk(old(view), remoteChunkSize, input, old(pos));
              if c.Chunk? then
                && Valid() && pos == c.next <= |input| && view == old(view)[c.csid := c.stream]
                && c.csid in messages && r == Got(messages[c.csid])
              else r == NotGot(c.error)
    {
      hide ReadChunk, ParseBasic, Valid;
      KeysAgree();
      var b := ReadChunkBasicHeader();
      if b.Short? {
        return NotGot(EndOfInput);
      }
      if b.csid !in messages && b.csid > MAX_CSID {
        return NotGot(NilStream);
      }
      var msg := Cached(b.fmt, b.csid);
      var s := ReadCached(b.csid, b.fmt);
      if s != Ok {
        return NotGot(s.error);
      }
      return Got(messages[b.csid]);
    }

    /** Chunks until one completes a message. */
    method RecvIntegralMessage() returns (r: Got)
      requires Valid() && pos <= |input| && StreamsOk(view)
      modifies this`pos, this`messages, this`view, this`owner, owner.Keys
      ensures fresh(owner.Keys - old(owner.Keys))
      ensures var m := RecvMessage(old(view), remoteChunkSize, input, old(pos));
              if m.Done? then
                && Valid() && pos == m.next <= |input| && view == m.streams
                && m.csid in messages && r == Got(messages[m.csid])
              else r == NotGot(m.error)
    {
      hide RecvChunk;
      while true
        invariant Valid() && pos <= |input| && StreamsOk(view) && remoteChunkSize == old(remoteChunkSize)
        invariant RecvMessage(view, remoteChunkSize, input, pos)
               == RecvMessage(old(view), remoteChunkSize, input, old(pos))
        invariant fresh(owner.Keys - old(owner.Keys))
        decreases |input| - pos
      {
        ghost var streams := view;
        ghost var start := pos;
        ghost var c := RecvChunk(streams, remoteChunkSize, input, start);
        r := ReceiveChunk();
        if r.NotGot? {
          return;
        }
        ChunkKeepsStreams(streams, remoteChunkSize, input, start);
        if r.stream.integral {
          return;
        }
      }
    }

    method HandleSetChunkSizeMessage(msg: Stream)
      modifies this`remoteChunkSize
      ensures remoteChunkSize == FromBE(msg.data[..]) % U32
    {
      remoteChunkSize := BytesAsUint32(msg.data[..], true);
    }

    method ResetStream(msg: Stream, ghost csid: nat)
      requires Valid() && csid in messages && messages[csid] == msg
      modifies this`view, msg
      ensures Valid() && view == old(view)[csid := Receiving.Reset(old(view[csid]))]
    {
      hide Stream.View;
      msg.Reset();
      view := view[csid := msg.View()];
      forall k | k in messages
        ensures Owns(k, messages[k]) && Owns(k, messages[k].data) && messages[k].View() == view[k]
      {
        assert old(Owns(k, messages[k]) && Owns(k, messages[k].data));
      }
    }

    /** Handling a message and, whatever it was, resetting its stream. */
    method OnRecvIntegralMessage(msg: Stream, ghost csid: nat)
      requires Valid() && csid in messages && messages[csid] == msg
      modifies this`remoteChunkSize, this`view, msg
      ensures Valid() && view == old(view)[csid := Receiving.Reset(old(view[csid]))]
      ensures remoteChunkSize == Announced(old(remoteChunkSize), MessageOf(old(view[csid])))
    {
      hide Valid;
      KeysAgree();
      ViewOf(csid);
      if msg.typeId == SET_CHUNK_SIZE {
        HandleSetChunkSizeMessage(msg);
      }
      ResetStream(msg, csid);
    }

    /** Receives and handles messages until the first error. */
    method ServeAll() returns (handled: seq<Message>, error: RecvError)
      requires Valid() && pos <= |input| && StreamsOk(view)
      modifies this`pos, this`remoteChunkSize, this`messages, this`view, this`owner, owner.Keys
      ensures var s := Serve(old(view), old(remoteChunkSize), input, old(pos));
              handled == s.messages && error == s.error && remoteChunkSize == s.chunkSize
    {
      hide RecvMessage, Valid, Stream.View;
      handled := [];
      while true
        invariant Valid() && pos <= |input| && StreamsOk(view) && fresh(owner.Keys - old(owner.Keys))
        invariant Prepend(handled, Serve(view, remoteChunkSize, input, pos))
               == Serve(old(view), old(remoteChunkSize), input, old(pos))
        decreases |input| - pos
      {
        ghost var m := RecvMessage(view, remoteChunkSize, input, pos);
        ghost var was, start := view, pos;
        KeysAgree();
        var r := RecvIntegralMessage();
        if r.NotGot? {
          return handled, r.error;
        }
        var msg := r.stream;
        ViewOf(m.csid);
        var message := Message(msg.csid, msg.timestamp, msg.typeId, msg.streamId, msg.data[..]);
        ServeStep(was, remoteChunkSize, input, start, m, handled);
        OnRecvIntegralMessage(msg, m.csid);
        handled := handled + [message];
      }
    }

    lemma ViewOf(csid: nat)
      requires Valid() && csid in messages
      ensures csid in view && messages[csid] in owner && messages[csid].data in owner
      ensures var msg := messages[csid];
              MessageOf(view[csid]) == Message(msg.csid, msg.timestamp, msg.typeId, msg.streamId, msg.data[..])
    {
    }
  }

  lemma ServeStep(ms: Streams, chunkSize: nat, input: seq<Byte>, pos: nat, r: Received, before: seq<Message>)
    requires StreamsOk(ms) && RecvMessage(ms, chunkSize, input, pos) == r && r.Done?
    ensures StreamsOk(r.streams[r.csid := Receiving.Reset(r.streams[r.csid])])
    ensures var m := MessageOf(r.streams[r.csid]);
            var rest := Serve(r.streams[r.csid := Receiving.Reset(r.streams[r.csid])], Announced(chunkSize, m), input, r.next);
            Prepend(before + [m], rest) == Prepend(before, Serve(ms, chunkSize, input, pos))
  {
    var m := MessageOf(r.streams[r.csid]);
    var rest := Serve(r.streams[r.csid := Receiving.Reset(r.streams[r.csid])], Announced(chunkSize, m), input, r.next);
    assert before + [m] + rest.messages == before + ([m] + rest.messages);
  }

  lemma HeaderLeavesBodied(m: StreamState, fmt: nat, input: seq<Byte>, pos: nat)
    requires fmt <= 3 && pos <= |input| && StreamOk(m)
    ensures var r := ReadHeader(m, fmt, input, pos); r.Read? ==> Bodied(r.stream)
  {
    if ReadHeader(m, fmt, input, pos).Read? { HeaderKeepsPartial(m, fmt, input, pos); }
  }
}
