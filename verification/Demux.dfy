/** Demultiplexing: chunk streams interleaved on one connection do not disturb each other. */
module Demux {
  import opened Bytes
  import opened ChunkHeaders
  import opened Receiving
  import opened RoundTrip

  /** One chunk as it stands on the wire, and the message it completes, if any. */
  datatype Piece = Piece(csid: nat, bytes: seq<Byte>, out: seq<Message>)

  /** The stream as the caller leaves it: reset if its message is complete. */
  function Settle(m: StreamState): StreamState { if m.integral then Reset(m) else m }

  function Out(m: StreamState): seq<Message> { if m.integral then [MessageOf(m)] else [] }

  function After(ms: Streams, c: Chunk): (ms': Streams)
    requires c.Chunk?
  {
    ms[c.csid := Settle(c.stream)]
  }

  lemma AfterOk(ms: Streams, chunkSize: nat, input: seq<Byte>, pos: nat, c: Chunk)
    requires StreamsOk(ms) && c == RecvChunk(ms, chunkSize, input, pos) && c.Chunk?
    ensures StreamsOk(After(ms, c))
  {
    hide RecvChunk;
    ChunkKeepsStreams(ms, chunkSize, input, pos);
  }

  /** The chunks of an input, up to the first error. */
  function Trace(ms: Streams, chunkSize: nat, input: seq<Byte>, pos: nat): seq<Piece>
    requires StreamsOk(ms)
    decreases |input| - pos
  {
    var c := RecvChunk(ms, chunkSize, input, pos);
    if c.ChunkFail? then []
    else
      AfterOk(ms, chunkSize, input, pos, c);
      [Piece(c.csid, input[pos..c.next], Out(c.stream))] + Trace(After(ms, c), chunkSize, input, c.next)
  }

  function Flatten(ps: seq<Piece>): seq<Byte> {
    if ps == [] then [] else ps[0].bytes + Flatten(ps[1..])
  }

  function Outputs(ps: seq<Piece>): seq<Message> {
    if ps == [] then [] else ps[0].out + Outputs(ps[1..])
  }

  /** The chunks of one chunk stream. */
  function Only(ps: seq<Piece>, k: nat): seq<Piece> {
    if ps == [] then [] else (if ps[0].csid == k then [ps[0]] else []) + Only(ps[1..], k)
  }

  function OfStream(ms: seq<Message>, k: nat): seq<Message> {
    if ms == [] then [] else (if ms[0].csid == k then [ms[0]] else []) + OfStream(ms[1..], k)
  }

  // ---------------------------------------------------------------- a chunk alone

  /** The chunk p, alone, is read completely on the streams ms. */
  predicate Accepts(ms: Streams, chunkSize: nat, p: Piece)
    requires StreamsOk(ms)
  {
    var c := RecvChunk(ms, chunkSize, p.bytes, 0);
    c.Chunk? && c.csid == p.csid && c.next == |p.bytes| && p.out == Out(c.stream)
  }

  /** Chunks that are accepted one after the other. */
  predicate WellFormed(ms: Streams, chunkSize: nat, ps: seq<Piece>)
    requires StreamsOk(ms)
    decreases |ps|
  {
    ps != [] ==>
      && Accepts(ms, chunkSize, ps[0])
      && var c := RecvChunk(ms, chunkSize, ps[0].bytes, 0);
         AfterOk(ms, chunkSize, ps[0].bytes, 0, c);
         WellFormed(After(ms, c), chunkSize, ps[1..])
  }

  /** Two maps of streams that agree on one of them. */
  predicate SameAt(a: Streams, b: Streams, k: nat) {
    (k in a <==> k in b) && (k in a && k in b ==> a[k] == b[k])
  }

  predicate SameBytes(a: seq<Byte>, i: nat, b: seq<Byte>, j: nat, n: nat) {
    i + n <= |a| && j + n <= |b| && a[i..i + n] == b[j..j + n]
  }

  lemma SameByte(a: seq<Byte>, i: nat, b: seq<Byte>, j: nat, n: nat, k: nat)
    requires SameBytes(a, i, b, j, n) && k < n
    ensures a[i + k] == b[j + k]
  {
    assert a[i..i + n][k] == b[j..j + n][k];
  }

  lemma SameSlice(a: seq<Byte>, i: nat, b: seq<Byte>, j: nat, n: nat, lo: nat, hi: nat)
    requires SameBytes(a, i, b, j, n) && lo <= hi <= n
    ensures SameBytes(a, i + lo, b, j + lo, hi - lo)
  {
    var u, v := a[i + lo..i + hi], b[j + lo..j + hi];
    forall t | 0 <= t < hi - lo ensures u[t] == v[t] {
      SameByte(a, i, b, j, n, lo + t);
    }
  }

  lemma BasicLocal(a: seq<Byte>, i: nat, b: seq<Byte>, j: nat, n: nat)
    requires SameBytes(a, i, b, j, n) && ParseBasic(a, i).Basic? && ParseBasic(a, i).next <= i + n
    ensures var r := ParseBasic(a, i); ParseBasic(b, j) == r.(next := j + (r.next - i))
  {
    SameByte(a, i, b, j, n, 0);
    if ParseBasic(a, i).next > i + 1 { SameByte(a, i, b, j, n, 1); }
    if ParseBasic(a, i).next > i + 2 { SameByte(a, i, b, j, n, 2); }
  }

  lemma FieldsLocal(m: StreamState, fmt: nat, a: seq<Byte>, i: nat, b: seq<Byte>, j: nat)
    requires fmt <= 3 && SameBytes(a, i, b, j, MessageSize(fmt))
    ensures ReadFields(m, fmt, a, i) == ReadFields(m, fmt, b, j)
    ensures fmt <= 1 ==> BE24(a, i + 3) == BE24(b, j + 3)
  {
    forall t | i <= t < i + MessageSize(fmt) ensures a[t] == b[t - i + j] {
      SameByte(a, i, b, j, MessageSize(fmt), t - i);
    }
  }

  lemma ExtendedLocal(m: StreamState, a: seq<Byte>, i: nat, b: seq<Byte>, j: nat)
    requires m.extended ==> SameBytes(a, i, b, j, 4)
    ensures ReadExtended(m, a, i).Read?
    ensures var r := ReadExtended(m, a, i); ReadExtended(m, b, j) == r.(next := j + (r.next - i))
  {
    if m.extended {
      forall t | i <= t < i + 4 ensures a[t] == b[t - i + j] {
        SameByte(a, i, b, j, 4, t - i);
      }
    }
  }

  lemma HeaderLocal(m: StreamState, fmt: nat, a: seq<Byte>, i: nat, b: seq<Byte>, j: nat, n: nat)
    requires fmt <= 3 && SameBytes(a, i, b, j, n) && StreamOk(m)
    requires var r := ReadHeader(m, fmt, a, i);
             r.Read? && r.next <= i + n && (r.stream.extended ==> MessageSize(fmt) + 4 <= n)
    ensures var r := ReadHeader(m, fmt, a, i); ReadHeader(m, fmt, b, j) == r.(next := j + (r.next - i))
  {
    hide ReadFields;
    var size := MessageSize(fmt);
    SameSlice(a, i, b, j, n, 0, size);
    FieldsLocal(m, fmt, a, i, b, j);
    var f := ReadFields(m, fmt, a, i);
    if f.extended { SameSlice(a, i, b, j, n, size, size + 4); }
    ExtendedLocal(f, a, i + size, b, j + size);
  }

  lemma BodyLocal(m: StreamState, chunkSize: nat, a: seq<Byte>, i: nat, b: seq<Byte>, j: nat, n: nat)
    requires Bodied(m) && SameBytes(a, i, b, j, n)
    requires var r := ReadBody(m, chunkSize, a, i); r.Read? && r.next <= i + n
    ensures var r := ReadBody(m, chunkSize, a, i); ReadBody(m, chunkSize, b, j) == r.(next := j + (r.next - i))
  {
    if m.messageLength > 0 {
      var size := Min(m.messageLength - m.hasRead, chunkSize);
      SameSlice(a, i, b, j, n, 0, size);
    }
  }

  lemma BodyKeepsExtended(m: StreamState, chunkSize: nat, input: seq<Byte>, pos: nat)
    requires Bodied(m) && pos <= |input| && ReadBody(m, chunkSize, input, pos).Read?
    ensures ReadBody(m, chunkSize, input, pos).stream.extended == m.extended
  {
  }

  lemma ReadLocal(m: StreamState, fmt: nat, chunkSize: nat, a: seq<Byte>, i: nat, b: seq<Byte>, j: nat, n: nat)
    requires fmt <= 3 && StreamOk(m) && SameBytes(a, i, b, j, n)
    requires var r := ReadChunk(m, fmt, chunkSize, a, i);
             r.Read? && r.next == i + n && (r.stream.extended ==> MessageSize(fmt) + 4 <= n)
    ensures ReadChunk(m, fmt, chunkSize, b, j) == ReadChunk(m, fmt, chunkSize, a, i).(next := j + n)
  {
    hide ReadHeader, ReadBody;
    var h := ReadHeader(m, fmt, a, i);
    HeaderKeepsPartial(m, fmt, a, i);
    BodyKeepsExtended(h.stream, chunkSize, a, h.next);
    HeaderLocal(m, fmt, a, i, b, j, n);
    SameSlice(a, i, b, j, n, h.next - i, n);
    BodyLocal(h.stream, chunkSize, a, h.next, b, j + (h.next - i), n - (h.next - i));
  }

  /** The four bytes looked at on a stream that has seen an extended timestamp, which may or may
      not be consumed, belong to the chunk. */
  predicate PeekInside(input: seq<Byte>, pos: nat, c: Chunk)
    requires c.Chunk?
  {
    c.stream.extended ==>
      var b := ParseBasic(input, pos);
      b.Basic? && b.next + MessageSize(b.fmt) + 4 <= c.next
  }

  /** What a chunk does depends on its own bytes and its own stream alone, unless it is looked
      past its end. */
  lemma ChunkLocal(ms: Streams, ms': Streams, chunkSize: nat, a: seq<Byte>, i: nat, b: seq<Byte>, j: nat)
    requires StreamsOk(ms) && StreamsOk(ms')
    requires var c := RecvChunk(ms, chunkSize, a, i);
             && c.Chunk? && PeekInside(a, i, c) && SameAt(ms, ms', c.csid)
             && SameBytes(a, i, b, j, c.next - i)
    ensures var c := RecvChunk(ms, chunkSize, a, i);
            RecvChunk(ms', chunkSize, b, j) == c.(next := j + (c.next - i))
  {
    hide ParseBasic, ReadChunk;
    var c := RecvChunk(ms, chunkSize, a, i);
    var n := c.next - i;
    var h := ParseBasic(a, i);
    BasicLocal(a, i, b, j, n);
    SameSlice(a, i, b, j, n, h.next - i, n);
    ReadLocal(Lookup(ms, h.fmt, h.csid), h.fmt, chunkSize, a, h.next, b, j + (h.next - i), n - (h.next - i));
  }

  lemma HeaderPeeksOutside(m: StreamState, fmt: nat, a: seq<Byte>, i: nat, b: seq<Byte>, j: nat, n: nat)
    requires fmt <= 3 && SameBytes(a, i, b, j, n) && j + n == |b| && StreamOk(m)
    requires var r := ReadHeader(m, fmt, a, i);
             r.Read? && r.next <= i + n && r.stream.extended && n < MessageSize(fmt) + 4
    ensures ReadHeader(m, fmt, b, j) == ReadFail(NoExtendedTimestamp)
  {
    hide ReadFields;
    SameSlice(a, i, b, j, n, 0, MessageSize(fmt));
    FieldsLocal(m, fmt, a, i, b, j);
  }

  lemma ReadPeeksOutside(m: StreamState, fmt: nat, chunkSize: nat, a: seq<Byte>, i: nat, b: seq<Byte>, j: nat, n: nat)
    requires fmt <= 3 && StreamOk(m) && SameBytes(a, i, b, j, n) && j + n == |b|
    requires var r := ReadChunk(m, fmt, chunkSize, a, i);
             r.Read? && r.next == i + n && r.stream.extended && n < MessageSize(fmt) + 4
    ensures ReadChunk(m, fmt, chunkSize, b, j) == ReadFail(NoExtendedTimestamp)
  {
    hide ReadHeader, ReadBody;
    var h := ReadHeader(m, fmt, a, i);
    HeaderKeepsPartial(m, fmt, a, i);
    BodyKeepsExtended(h.stream, chunkSize, a, h.next);
    HeaderPeeksOutside(m, fmt, a, i, b, j, n);
  }

  /** A chunk of any input can be read from its own bytes alone exactly when it is not looked
      past its end; otherwise it fails for want of the peeked bytes. */
  lemma AloneIffPeekInside(ms: Streams, chunkSize: nat, input: seq<Byte>, pos: nat, c: Chunk)
    requires StreamsOk(ms) && c == RecvChunk(ms, chunkSize, input, pos) && c.Chunk?
    ensures var p := Piece(c.csid, input[pos..c.next], Out(c.stream));
            var alone := RecvChunk(ms, chunkSize, p.bytes, 0);
            && (Accepts(ms, chunkSize, p) <==> PeekInside(input, pos, c))
            && alone == if PeekInside(input, pos, c) then c.(next := |p.bytes|) else ChunkFail(NoExtendedTimestamp)
  {
    var bytes := input[pos..c.next];
    assert bytes[0..|bytes|] == bytes;
    if PeekInside(input, pos, c) {
      ChunkLocal(ms, ms, chunkSize, input, pos, bytes, 0);
    } else {
      hide ParseBasic, ReadChunk;
      var n := |bytes|;
      var h := ParseBasic(input, pos);
      BasicLocal(input, pos, bytes, 0, n);
      SameSlice(input, pos, bytes, 0, n, h.next - pos, n);
      ReadPeeksOutside(Lookup(ms, h.fmt, h.csid), h.fmt, chunkSize, input, h.next,
                       bytes, h.next - pos, n - (h.next - pos));
    }
  }

  /** A chunk that was read from its own bytes was not looked past its end. */
  lemma AcceptedInside(ms: Streams, chunkSize: nat, p: Piece)
    requires StreamsOk(ms) && Accepts(ms, chunkSize, p)
    ensures PeekInside(p.bytes, 0, RecvChunk(ms, chunkSize, p.bytes, 0))
  {
    hide RecvChunk;
    var c := RecvChunk(ms, chunkSize, p.bytes, 0);
    assert p.bytes[0..|p.bytes|] == p.bytes;
    AloneIffPeekInside(ms, chunkSize, p.bytes, 0, c);
  }

  // ---------------------------------------------------------------- splitting and merging

  function Restrict(ms: Streams, k: nat): Streams {
    if k in ms then map[k := ms[k]] else map[]
  }

  lemma AcceptsLocal(ms: Streams, ms': Streams, chunkSize: nat, p: Piece)
    requires StreamsOk(ms) && StreamsOk(ms') && SameAt(ms, ms', p.csid) && Accepts(ms, chunkSize, p)
    ensures Accepts(ms', chunkSize, p)
    ensures RecvChunk(ms', chunkSize, p.bytes, 0) == RecvChunk(ms, chunkSize, p.bytes, 0)
  {
    hide RecvChunk;
    AcceptedInside(ms, chunkSize, p);
    ChunkLocal(ms, ms', chunkSize, p.bytes, 0, p.bytes, 0);
  }

  lemma AfterRestrict(ms: Streams, c: Chunk, k: nat)
    requires c.Chunk?
    ensures c.csid == k ==> After(Restrict(ms, k), c) == Restrict(After(ms, c), k)
    ensures c.csid != k ==> Restrict(After(ms, c), k) == Restrict(ms, k)
  {
  }

  lemma OnlyStep(ps: seq<Piece>, k: nat)
    requires ps != []
    ensures var own := Only(ps, k);
            if ps[0].csid == k then own != [] && own[0] == ps[0] && own[1..] == Only(ps[1..], k)
            else own == Only(ps[1..], k)
  {
  }

  /** Of interleaved chunks that are well formed, every chunk stream's own chunks are. */
  lemma {:induction false} WellFormedSplits(ms: Streams, chunkSize: nat, ps: seq<Piece>, k: nat)
    requires StreamsOk(ms) && WellFormed(ms, chunkSize, ps)
    ensures WellFormed(Restrict(ms, k), chunkSize, Only(ps, k))
    decreases |ps|
  {
    hide RecvChunk, Accepts;
    if ps != [] {
      var p := ps[0];
      var c := Alone(ms, chunkSize, ps);
      WellFormedSplits(After(ms, c), chunkSize, ps[1..], k);
      AfterRestrict(ms, c, k);
      OnlyStep(ps, k);
      if p.csid == k {
        AcceptsLocal(ms, Restrict(ms, k), chunkSize, p);
      }
    }
  }

  /** The first of some well-formed chunks. */
  lemma Alone(ms: Streams, chunkSize: nat, ps: seq<Piece>) returns (c: Chunk)
    requires StreamsOk(ms) && ps != [] && WellFormed(ms, chunkSize, ps)
    ensures Accepts(ms, chunkSize, ps[0]) && c == RecvChunk(ms, chunkSize, ps[0].bytes, 0)
    ensures c.Chunk? && c.csid == ps[0].csid && c.next == |ps[0].bytes|
    ensures ps[0].out == Out(c.stream) && 0 < c.next
    ensures StreamsOk(After(ms, c)) && WellFormed(After(ms, c), chunkSize, ps[1..])
  {
    hide RecvChunk;
    c := RecvChunk(ms, chunkSize, ps[0].bytes, 0);
    AfterOk(ms, chunkSize, ps[0].bytes, 0, c);
  }

  lemma {:induction false} WellFormedMerges(ms: Streams, chunkSize: nat, ps: seq<Piece>)
    requires StreamsOk(ms)
    requires forall k :: WellFormed(Restrict(ms, k), chunkSize, Only(ps, k))
    ensures WellFormed(ms, chunkSize, ps)
    decreases |ps|
  {
    hide RecvChunk, Accepts;
    if ps != [] {
      var p := ps[0];
      var own := Only(ps, p.csid);
      OnlyStep(ps, p.csid);
      var c := Alone(Restrict(ms, p.csid), chunkSize, own);
      AcceptsLocal(Restrict(ms, p.csid), ms, chunkSize, p);
      AfterOk(ms, chunkSize, p.bytes, 0, c);
      forall k ensures WellFormed(Restrict(After(ms, c), k), chunkSize, Only(ps[1..], k)) {
        AfterRestrict(ms, c, k);
        OnlyStep(ps, k);
        assert WellFormed(Restrict(ms, k), chunkSize, Only(ps, k));
      }
      WellFormedMerges(After(ms, c), chunkSize, ps[1..]);
    }
  }

  /** Interleaved chunks are well formed exactly when every chunk stream's own chunks are. */
  lemma WellFormedIff(ms: Streams, chunkSize: nat, ps: seq<Piece>)
    requires StreamsOk(ms)
    ensures WellFormed(ms, chunkSize, ps) <==> forall k :: WellFormed(Restrict(ms, k), chunkSize, Only(ps, k))
  {
    if WellFormed(ms, chunkSize, ps) {
      forall k ensures WellFormed(Restrict(ms, k), chunkSize, Only(ps, k)) { WellFormedSplits(ms, chunkSize, ps, k); }
    } else if forall k :: WellFormed(Restrict(ms, k), chunkSize, Only(ps, k)) {
      WellFormedMerges(ms, chunkSize, ps);
    }
  }

  // ---------------------------------------------------------------- chunks and inputs

  lemma {:induction false} TraceOfWellFormed(ms: Streams, chunkSize: nat, ps: seq<Piece>, input: seq<Byte>, pos: nat)
    requires StreamsOk(ms) && WellFormed(ms, chunkSize, ps)
    requires pos <= |input| && input[pos..] == Flatten(ps)
    ensures Trace(ms, chunkSize, input, pos) == ps
    decreases |ps|
  {
    hide RecvChunk, Accepts;
    if ps == [] {
      NothingLeft(ms, chunkSize, input);
    } else {
      var p := ps[0];
      var c := Alone(ms, chunkSize, ps);
      assert input[pos..][..|p.bytes|] == p.bytes && input[pos..][|p.bytes|..] == Flatten(ps[1..]);
      assert input[pos..pos + |p.bytes|] == p.bytes[0..|p.bytes|] == p.bytes;
      assert input[pos + |p.bytes|..] == Flatten(ps[1..]);
      AcceptedInside(ms, chunkSize, p);
      ChunkLocal(ms, ms, chunkSize, p.bytes, 0, input, pos);
      TraceOfWellFormed(After(ms, c), chunkSize, ps[1..], input, pos + |p.bytes|);
      TraceStep(ms, chunkSize, input, pos, c.(next := pos + |p.bytes|), ps[1..]);
    }
  }

  lemma NothingLeft(ms: Streams, chunkSize: nat, input: seq<Byte>)
    requires StreamsOk(ms)
    ensures RecvChunk(ms, chunkSize, input, |input|) == ChunkFail(EndOfInput)
  {
  }

  lemma TraceStep(ms: Streams, chunkSize: nat, input: seq<Byte>, pos: nat, c: Chunk, rest: seq<Piece>)
    requires StreamsOk(ms) && c == RecvChunk(ms, chunkSize, input, pos) && c.Chunk?
    requires StreamsOk(After(ms, c)) && Trace(After(ms, c), chunkSize, input, c.next) == rest
    ensures Trace(ms, chunkSize, input, pos) == [Piece(c.csid, input[pos..c.next], Out(c.stream))] + rest
  {
    hide RecvChunk;
  }

  /** No chunk of an input is looked past its end. */
  predicate PeeksInside(ms: Streams, chunkSize: nat, input: seq<Byte>, pos: nat)
    requires StreamsOk(ms)
    decreases |input| - pos
  {
    var c := RecvChunk(ms, chunkSize, input, pos);
    c.Chunk? ==>
      && PeekInside(input, pos, c)
      && (AfterOk(ms, chunkSize, input, pos, c);
          PeeksInside(After(ms, c), chunkSize, input, c.next))
  }

  /** The chunks that an input is read as are well formed, each alone, exactly when none is
      looked past its end. */
  lemma {:induction false} TraceWellFormedIff(ms: Streams, chunkSize: nat, input: seq<Byte>, pos: nat)
    requires StreamsOk(ms)
    ensures WellFormed(ms, chunkSize, Trace(ms, chunkSize, input, pos)) <==> PeeksInside(ms, chunkSize, input, pos)
    decreases |input| - pos
  {
    hide RecvChunk, PeekInside, Accepts;
    var c := RecvChunk(ms, chunkSize, input, pos);
    if c.Chunk? {
      AfterOk(ms, chunkSize, input, pos, c);
      var rest := Trace(After(ms, c), chunkSize, input, c.next);
      TraceStep(ms, chunkSize, input, pos, c, rest);
      AloneIffPeekInside(ms, chunkSize, input, pos, c);
      TraceWellFormedIff(After(ms, c), chunkSize, input, c.next);
      assert Trace(ms, chunkSize, input, pos)[1..] == rest;
    }
  }

  // ---------------------------------------------------------------- messages

  /** An incomplete chunk does not show in the messages served. */
  lemma ServeSkips(ms: Streams, chunkSize: nat, input: seq<Byte>, pos: nat, c: Chunk)
    requires StreamsOk(ms) && c == RecvChunk(ms, chunkSize, input, pos) && c.Chunk? && !c.stream.integral
    requires StreamsOk(After(ms, c))
    ensures Serve(ms, chunkSize, input, pos).messages == Serve(After(ms, c), chunkSize, input, c.next).messages
  {
    hide RecvChunk;
    MessageStep(ms, chunkSize, input, pos, c, RecvMessage(After(ms, c), chunkSize, input, c.next));
  }

  lemma ServeTakes(ms: Streams, chunkSize: nat, input: seq<Byte>, pos: nat, c: Chunk)
    requires StreamsOk(ms) && c == RecvChunk(ms, chunkSize, input, pos) && c.Chunk? && c.stream.integral
    requires StreamsOk(After(ms, c)) && c.stream.typeId != SET_CHUNK_SIZE
    ensures Serve(ms, chunkSize, input, pos).messages
         == [MessageOf(c.stream)] + Serve(After(ms, c), chunkSize, input, c.next).messages
  {
    hide RecvChunk;
    MessageEnd(ms, chunkSize, input, pos, c);
    ServeStep(ms, chunkSize, input, pos, Done(c.csid, ms[c.csid := c.stream], c.next));
    assert ms[c.csid := c.stream][c.csid := Reset(c.stream)] == After(ms, c);
  }

  /** With the chunk size fixed, the messages served are those the chunks complete. */
  lemma {:induction false} ServeIsTrace(ms: Streams, chunkSize: nat, input: seq<Byte>, pos: nat)
    requires StreamsOk(ms)
    requires forall m :: m in Outputs(Trace(ms, chunkSize, input, pos)) ==> m.typeId != SET_CHUNK_SIZE
    ensures Serve(ms, chunkSize, input, pos).messages == Outputs(Trace(ms, chunkSize, input, pos))
    decreases |input| - pos
  {
    hide RecvChunk;
    var c := RecvChunk(ms, chunkSize, input, pos);
    if c.Chunk? {
      AfterOk(ms, chunkSize, input, pos, c);
      var rest := Trace(After(ms, c), chunkSize, input, c.next);
      TraceStep(ms, chunkSize, input, pos, c, rest);
      var t := Trace(ms, chunkSize, input, pos);
      assert t[0].out == Out(c.stream) && t[1..] == rest;
      assert Outputs(t) == Out(c.stream) + Outputs(rest);
      ServeIsTrace(After(ms, c), chunkSize, input, c.next);
      if c.stream.integral {
        assert MessageOf(c.stream) in Outputs(t);
        ServeTakes(ms, chunkSize, input, pos, c);
      } else {
        ServeSkips(ms, chunkSize, input, pos, c);
      }
    }
  }

  predicate OwnCsids(ms: Streams) { forall k :: k in ms ==> ms[k].csid == k }

  lemma ChunkCsid(ms: Streams, chunkSize: nat, input: seq<Byte>, pos: nat, c: Chunk)
    requires StreamsOk(ms) && OwnCsids(ms) && c == RecvChunk(ms, chunkSize, input, pos) && c.Chunk?
    ensures c.stream.csid == c.csid && OwnCsids(After(ms, c))
  {
    var b := ParseBasic(input, pos);
    HeaderKeepsPartial(Lookup(ms, b.fmt, b.csid), b.fmt, input, b.next);
  }

  lemma {:induction false} OfStreamJoin(a: seq<Message>, b: seq<Message>, k: nat)
    ensures OfStream(a + b, k) == OfStream(a, k) + OfStream(b, k)
    decreases |a|
  {
    if a == [] {
      assert a + b == b;
    } else {
      assert (a + b)[1..] == a[1..] + b;
      OfStreamJoin(a[1..], b, k);
    }
  }

  lemma {:induction false} OutputsSplit(ms: Streams, chunkSize: nat, ps: seq<Piece>, k: nat)
    requires StreamsOk(ms) && OwnCsids(ms) && WellFormed(ms, chunkSize, ps)
    ensures OfStream(Outputs(ps), k) == Outputs(Only(ps, k))
    decreases |ps|
  {
    hide RecvChunk, Accepts;
    if ps != [] {
      var c := Alone(ms, chunkSize, ps);
      ChunkCsid(ms, chunkSize, ps[0].bytes, 0, c);
      OutputsSplit(After(ms, c), chunkSize, ps[1..], k);
      OfStreamJoin(ps[0].out, Outputs(ps[1..]), k);
      OnlyStep(ps, k);
      assert OfStream(ps[0].out, k) == if ps[0].csid == k then ps[0].out else [];
    }
  }

  lemma NoChunkSizeOnly(ps: seq<Piece>, k: nat)
    requires forall m :: m in Outputs(ps) ==> m.typeId != SET_CHUNK_SIZE
    ensures forall m :: m in Outputs(Only(ps, k)) ==> m.typeId != SET_CHUNK_SIZE
    decreases |ps|
  {
    if ps != [] {
      NoChunkSizeOnly(ps[1..], k);
      OnlyStep(ps, k);
    }
  }

  /** Any interleaving of chunk streams that are well formed each alone serves, for every
      chunk stream, exactly the messages its own chunks serve alone. */
  lemma Interleaving(chunkSize: nat, ps: seq<Piece>, k: nat)
    requires forall j :: WellFormed(map[], chunkSize, Only(ps, j))
    requires forall m :: m in Outputs(ps) ==> m.typeId != SET_CHUNK_SIZE
    ensures Serve(map[], chunkSize, Flatten(ps), 0).messages == Outputs(ps)
    ensures OfStream(Serve(map[], chunkSize, Flatten(ps), 0).messages, k)
         == Serve(map[], chunkSize, Flatten(Only(ps, k)), 0).messages
  {
    hide RecvChunk, WellFormed;
    forall j ensures WellFormed(Restrict(map[], j), chunkSize, Only(ps, j)) {
      assert WellFormed(map[], chunkSize, Only(ps, j));
    }
    WellFormedMerges(map[], chunkSize, ps);
    ServeFlattened(chunkSize, ps);
    ServeFlattened(chunkSize, Only(ps, k)) by { NoChunkSizeOnly(ps, k); assert WellFormed(map[], chunkSize, Only(ps, k)); }
    OutputsSplit(map[], chunkSize, ps, k);
  }

  lemma ServeFlattened(chunkSize: nat, ps: seq<Piece>)
    requires WellFormed(map[], chunkSize, ps) && forall m :: m in Outputs(ps) ==> m.typeId != SET_CHUNK_SIZE
    ensures Serve(map[], chunkSize, Flatten(ps), 0).messages == Outputs(ps)
  {
    hide RecvChunk, WellFormed, Serve;
    var bytes := Flatten(ps);
    assert bytes[0..] == bytes;
    TraceOfWellFormed(map[], chunkSize, ps, bytes, 0);
    ServeIsTrace(map[], chunkSize, bytes, 0);
  }

  lemma {:induction false} TraceIsPrefix(ms: Streams, chunkSize: nat, input: seq<Byte>, pos: nat)
    requires StreamsOk(ms) && pos <= |input|
    ensures Flatten(Trace(ms, chunkSize, input, pos)) <= input[pos..]
    decreases |input| - pos
  {
    hide RecvChunk;
    var c := RecvChunk(ms, chunkSize, input, pos);
    if c.Chunk? {
      AfterOk(ms, chunkSize, input, pos, c);
      TraceStep(ms, chunkSize, input, pos, c, Trace(After(ms, c), chunkSize, input, c.next));
      TraceIsPrefix(After(ms, c), chunkSize, input, c.next);
      assert input[pos..] == input[pos..c.next] + input[c.next..];
    }
  }

  /** Every input is a run of chunks, and each chunk stream's messages are those that its
      chunks, cut out of the input and received alone, give. */
  lemma Demultiplexing(chunkSize: nat, input: seq<Byte>, k: nat)
    requires PeeksInside(map[], chunkSize, input, 0)
    requires forall m :: m in Outputs(Trace(map[], chunkSize, input, 0)) ==> m.typeId != SET_CHUNK_SIZE
    ensures var ps := Trace(map[], chunkSize, input, 0);
            && Flatten(ps) <= input
            && Serve(map[], chunkSize, input, 0).messages == Outputs(ps)
            && OfStream(Outputs(ps), k) == Serve(map[], chunkSize, Flatten(Only(ps, k)), 0).messages
  {
    hide RecvChunk, WellFormed, Serve;
    var ps := Trace(map[], chunkSize, input, 0);
    TraceIsPrefix(map[], chunkSize, input, 0);
    assert input[0..] == input;
    ServeIsTrace(map[], chunkSize, input, 0);
    TraceWellFormedIff(map[], chunkSize, input, 0);
    WellFormedSplits(map[], chunkSize, ps, k);
    NoChunkSizeOnly(ps, k);
    ServeFlattened(chunkSize, Only(ps, k));
    OutputsSplit(map[], chunkSize, ps, k);
  }

  // An input on which a stream alone fares worse, at the smallest chunk size a connection starts
  // with: csid 4 announces an extended timestamp and a message of 129 bytes and closes it with a
  // one-byte chunk. The four bytes looked at then reach into the next chunk, which is csid 6's.

  const CHUNK: nat := 128

  /** The first 128 bytes of the message. */
  function Sevens(): (s: seq<Byte>)
    ensures |s| == CHUNK
  {
    seq(CHUNK, _ => 7)
  }

  const OPENING: seq<Byte> := [4, 255, 255, 255, 0, 0, 129, 8, 1, 0, 0, 0, 0, 0, 0, 5] + Sevens()
  const CLOSING: seq<Byte> := [196, 9]
  const OTHER: seq<Byte> := [6, 0, 0, 1, 0, 0, 1, 9, 1, 0, 0, 0, 3]

  /** The position behind the opening chunk. */
  const CLOSES: nat := 144

  function Opened(): StreamState {
    StreamState(0, 4, 5, CHUNK + 1, 8, 1, Sevens() + [0], false, CHUNK, false, NO_TIMESTAMP, true)
  }

  function Closed(): StreamState { Opened().(data := Sevens() + [9], hasRead := CHUNK + 1, integral := true) }

  lemma OpeningReads(rest: seq<Byte>)
    ensures RecvChunk(map[], CHUNK, OPENING + rest, 0) == Chunk(4, Opened(), CLOSES)
  {
    var input := OPENING + rest;
    assert ParseBasic(input, 0) == Basic(0, 4, 1);
    var h := ReadHeader(NewStream(0, 4), 0, input, 1);
    assert h == Read(NewStream(0, 4).(timestamp := 5, messageLength := CHUNK + 1, typeId := 8, streamId := 1,
                                      delta := NO_TIMESTAMP, extended := true, firstChunk := false), 16);
    assert input[16..CLOSES] == Sevens();
    assert Overlay(Sevens(), 0, Zeros(CHUNK + 1)) == Sevens() + [0];
  }

  lemma ClosingReads(input: seq<Byte>)
    requires |input| >= CLOSES + 5 && input[CLOSES] == 196 && input[CLOSES + 1] == 9
    requires BE32(input, CLOSES + 1) % 0x8000_0000 != 5
    ensures var c := RecvChunk(map[4 := Opened()], CHUNK, input, CLOSES);
            c == Chunk(4, Closed(), CLOSES + 2) && !PeekInside(input, CLOSES, c)
  {
    assert ParseBasic(input, CLOSES) == Basic(3, 4, CLOSES + 1);
    assert ReadHeader(Opened(), 3, input, CLOSES + 1) == Read(Opened(), CLOSES + 1);
    assert Overlay(input[CLOSES + 1..CLOSES + 2], CHUNK, Sevens() + [0]) == Sevens() + [9];
  }

  lemma AloneFails()
    ensures RecvChunk(map[4 := Opened()], CHUNK, OPENING + CLOSING, CLOSES) == ChunkFail(NoExtendedTimestamp)
  {
    var alone := OPENING + CLOSING;
    assert ParseBasic(alone, CLOSES) == Basic(3, 4, CLOSES + 1);
  }

  lemma TogetherCloses()
    ensures var all := OPENING + CLOSING + OTHER;
            var c := RecvChunk(map[4 := Opened()], CHUNK, all, CLOSES);
            c == Chunk(4, Closed(), CLOSES + 2) && !PeekInside(all, CLOSES, c)
  {
    ClosingReads(OPENING + CLOSING + OTHER);
  }

  lemma OpeningGoesOn(input: seq<Byte>)
    requires RecvChunk(map[], CHUNK, input, 0) == Chunk(4, Opened(), CLOSES)
    ensures RecvMessage(map[], CHUNK, input, 0) == RecvMessage(map[4 := Opened()], CHUNK, input, CLOSES)
    ensures PeeksInside(map[], CHUNK, input, 0) ==> PeeksInside(map[4 := Opened()], CHUNK, input, CLOSES)
  {
    hide RecvChunk;
    var c := Chunk(4, Opened(), CLOSES);
    assert map[][4 := Opened()] == map[4 := Opened()] == After(map[], c);
    MessageStep(map[], CHUNK, input, 0, c, RecvMessage(map[4 := Opened()], CHUNK, input, CLOSES));
  }

  lemma ClosingEnds(input: seq<Byte>)
    requires var c := RecvChunk(map[4 := Opened()], CHUNK, input, CLOSES);
             c == Chunk(4, Closed(), CLOSES + 2) && !PeekInside(input, CLOSES, c)
    ensures var r := RecvMessage(map[4 := Opened()], CHUNK, input, CLOSES);
            r.Done? && MessageOf(r.streams[r.csid]) == Message(4, 5, 8, 1, Sevens() + [9])
    ensures !PeeksInside(map[4 := Opened()], CHUNK, input, CLOSES)
  {
    hide RecvChunk, PeekInside;
    MessageEnd(map[4 := Opened()], CHUNK, input, CLOSES, Chunk(4, Closed(), CLOSES + 2));
  }

  lemma ClosingFails(input: seq<Byte>)
    requires RecvChunk(map[4 := Opened()], CHUNK, input, CLOSES) == ChunkFail(NoExtendedTimestamp)
    ensures RecvMessage(map[4 := Opened()], CHUNK, input, CLOSES) == Failed(NoExtendedTimestamp)
  {
    hide RecvChunk;
  }

  /** Alone the stream fails on its last chunk; with the other stream behind it, it delivers. */
  lemma PeekOutsideReached()
    ensures var r := RecvMessage(map[], CHUNK, OPENING + CLOSING + OTHER, 0);
            r.Done? && MessageOf(r.streams[r.csid]) == Message(4, 5, 8, 1, Sevens() + [9])
    ensures RecvMessage(map[], CHUNK, OPENING + CLOSING, 0) == Failed(NoExtendedTimestamp)
    ensures !PeeksInside(map[], CHUNK, OPENING + CLOSING + OTHER, 0)
  {
    hide RecvChunk, RecvMessage, PeeksInside, Opened, Closed;
    var all, alone := OPENING + CLOSING + OTHER, OPENING + CLOSING;
    assert all == OPENING + (CLOSING + OTHER);
    OpeningReads(CLOSING + OTHER);
    OpeningReads(CLOSING);
    OpeningGoesOn(all);
    OpeningGoesOn(alone);
    TogetherCloses();
    ClosingEnds(all);
    AloneFails();
    ClosingFails(alone);
  }

  // ---------------------------------------------------------------- payloads

  /** What has been read of every half-built message, collected by appending. */
  predicate Collected(ms: Streams, parts: map<nat, seq<Byte>>) {
    forall k :: k in ms ==>
      k in parts && ms[k].hasRead == |parts[k]| <= |ms[k].data| && ms[k].data[..ms[k].hasRead] == parts[k]
  }

  /** The payload bytes of a chunk: what it adds to its stream, at its end. */
  function Body(ms: Streams, input: seq<Byte>, c: Chunk): seq<Byte>
    requires c.Chunk? && c.next <= |input|
  {
    var before := if c.csid in ms then ms[c.csid].hasRead else 0;
    var n := c.stream.hasRead - before;
    if 0 <= n <= c.next then input[c.next - n..c.next] else []
  }

  function Append(parts: map<nat, seq<Byte>>, k: nat, bytes: seq<Byte>): seq<Byte> {
    (if k in parts then parts[k] else []) + bytes
  }

  lemma BodyAppends(m: StreamState, chunkSize: nat, input: seq<Byte>, pos: nat)
    requires StreamOk(m) && pos <= |input| && ReadBody(m, chunkSize, input, pos).Read?
    requires m.messageLength == 0 ==> m.hasRead == 0
    requires m.hasRead <= |m.data|
    ensures var r := ReadBody(m, chunkSize, input, pos);
            && m.hasRead <= r.stream.hasRead <= |r.stream.data| && r.next == pos + (r.stream.hasRead - m.hasRead)
            && r.stream.data[..r.stream.hasRead] == m.data[..m.hasRead] + input[pos..r.next]
            && (r.stream.integral ==> r.stream.hasRead == |r.stream.data|)
  {
  }

  /** A chunk adds its body to what its stream has read. */
  lemma ChunkAppends(ms: Streams, chunkSize: nat, input: seq<Byte>, pos: nat, c: Chunk)
    requires StreamsOk(ms) && c == RecvChunk(ms, chunkSize, input, pos) && c.Chunk?
    requires c.csid in ms ==> ms[c.csid].hasRead <= |ms[c.csid].data|
    ensures var before := if c.csid in ms then ms[c.csid].data[..ms[c.csid].hasRead] else [];
            && |before| <= c.stream.hasRead <= |c.stream.data|
            && c.stream.data[..c.stream.hasRead] == before + Body(ms, input, c)
            && (c.stream.integral ==> c.stream.hasRead == |c.stream.data|)
  {
    hide ReadHeader, ReadBody, ParseBasic;
    var b := ParseBasic(input, pos);
    var m := Lookup(ms, b.fmt, b.csid);
    var h := ReadHeader(m, b.fmt, input, b.next);
    HeaderKeepsPartial(m, b.fmt, input, b.next);
    BodyAppends(h.stream, chunkSize, input, h.next);
  }

  /** Receive-state invariant: a stream's buffer starts with the payload bytes read so far, in
      order, and a completed message is exactly those bytes. */
  lemma CollectStep(ms: Streams, parts: map<nat, seq<Byte>>, chunkSize: nat, input: seq<Byte>, pos: nat, c: Chunk)
    requires StreamsOk(ms) && Collected(ms, parts) && c == RecvChunk(ms, chunkSize, input, pos) && c.Chunk?
    requires forall k :: k in parts ==> k in ms
    ensures var all := Append(parts, c.csid, Body(ms, input, c));
            && Collected(After(ms, c), parts[c.csid := if c.stream.integral then [] else all])
            && (c.stream.integral ==> MessageOf(c.stream).payload == all)
  {
    ChunkAppends(ms, chunkSize, input, pos, c);
    hide RecvChunk, Body, StreamsOk;
  }

  /** The payloads an input carries, by appending chunk bodies alone. */
  function Payloads(ms: Streams, parts: map<nat, seq<Byte>>, chunkSize: nat, input: seq<Byte>, pos: nat): seq<seq<Byte>>
    requires StreamsOk(ms)
    decreases |input| - pos
  {
    var c := RecvChunk(ms, chunkSize, input, pos);
    if c.ChunkFail? then []
    else
      AfterOk(ms, chunkSize, input, pos, c);
      var all := Append(parts, c.csid, Body(ms, input, c));
      var rest := Payloads(After(ms, c), parts[c.csid := if c.stream.integral then [] else all], chunkSize, input, c.next);
      if c.stream.integral then [all] + rest else rest
  }

  function PayloadsOf(ms: seq<Message>): seq<seq<Byte>> {
    if ms == [] then [] else [ms[0].payload] + PayloadsOf(ms[1..])
  }

  /** The messages of any input carry their chunk bodies, complete and in order. */
  lemma {:induction false} PayloadsComplete(ms: Streams, parts: map<nat, seq<Byte>>, chunkSize: nat,
                                            input: seq<Byte>, pos: nat)
    requires StreamsOk(ms) && Collected(ms, parts) && forall k :: k in parts ==> k in ms
    ensures PayloadsOf(Outputs(Trace(ms, chunkSize, input, pos))) == Payloads(ms, parts, chunkSize, input, pos)
    decreases |input| - pos
  {
    hide RecvChunk, Collected, Body;
    var c := RecvChunk(ms, chunkSize, input, pos);
    if c.Chunk? {
      AfterOk(ms, chunkSize, input, pos, c);
      CollectStep(ms, parts, chunkSize, input, pos, c);
      var all := Append(parts, c.csid, Body(ms, input, c));
      var parts' := parts[c.csid := if c.stream.integral then [] else all];
      var rest := Trace(After(ms, c), chunkSize, input, c.next);
      TraceStep(ms, chunkSize, input, pos, c, rest);
      var t := Trace(ms, chunkSize, input, pos);
      assert t[0].out == Out(c.stream) && t[1..] == rest;
      PayloadsComplete(After(ms, c), parts', chunkSize, input, c.next);
      assert Outputs(t) == Out(c.stream) + Outputs(rest);
      if c.stream.integral {
        assert Outputs(t)[1..] == Outputs(rest);
      } else {
        assert Outputs(t) == Outputs(rest);
      }
    }
  }
}
