/** The write half of a connection: the splitter and the gather buffer of
    pkg/rtmp/connection/connection.go, with the pooled header buffers it shares. */
module WriteHalves {
  import Words
  import opened Bytes
  import opened ChunkHeaders
  import opened Receiving
  import opened Sending
  import opened RoundTrip

  /** A Go slice of a pooled header buffer: its length; the capacity is the array's. */
  datatype Slice = Slice(buf: array<Byte>, len: nat)

  /** An element of the gather buffer. Payloads are shared with the caller, who does not write
      to them before they are flushed. */
  datatype Part = HeaderPart(slice: Slice) | PayloadPart(bytes: seq<Byte>)

  /** `Panicked`: a pooled header buffer came back too short for the basic header. */
  datatype SendResult = Sent(n: nat) | EmptyMessage | BadHeader | Panicked

  predicate GoodSlice(s: Slice) { s.buf.Length == HEADER_CAP && 1 <= s.len <= HEADER_CAP }

  predicate GoodPart(p: Part) { p.HeaderPart? ==> GoodSlice(p.slice) }

  predicate GoodParts(parts: seq<Part>) {
    forall i :: 0 <= i < |parts| ==> GoodPart(parts[i])
  }

  /** Every free buffer is long enough for the basic header of csid. */
  ghost predicate Fits(pool: seq<Slice>, csid: nat) {
    forall s :: s in pool ==> BasicSize(csid) <= s.len
  }

  /** The choice of a pooled header buffer falls on one that is too short for csid. */
  predicate TooShort(pool: seq<Slice>, pick: nat, csid: nat) {
    pick < |pool| && pool[pick].len < BasicSize(csid)
  }

  /** The last header queued is `len` bytes long. */
  predicate EndsWithHeader(parts: seq<Part>, len: nat) {
    2 <= |parts| && parts[|parts| - 2].HeaderPart? && parts[|parts| - 2].slice.len == len
  }

  /** Headers at even positions, payloads at odd ones. */
  predicate Alternates(parts: seq<Part>) {
    forall i :: 0 <= i < |parts| ==> (parts[i].HeaderPart? <==> i % 2 == 0)
  }

  ghost function PoolArrays(pool: seq<Slice>): set<object> {
    set i | 0 <= i < |pool| :: pool[i].buf
  }

  ghost function HeaderArrays(parts: seq<Part>): set<object> {
    set i | 0 <= i < |parts| && parts[i].HeaderPart? :: parts[i].slice.buf
  }

  /** What a part stands for at this moment. */
  ghost function PartBytes(p: Part): seq<Byte>
    requires GoodPart(p)
    reads if p.HeaderPart? then {p.slice.buf} else {}
  {
    match p
    case HeaderPart(s) => s.buf[..s.len]
    case PayloadPart(bytes) => bytes
  }

  function Concat(pieces: seq<seq<Byte>>): seq<Byte> {
    if pieces == [] then [] else Concat(pieces[..|pieces| - 1]) + pieces[|pieces| - 1]
  }

  lemma ConcatAppend(pieces: seq<seq<Byte>>, piece: seq<Byte>)
    ensures Concat(pieces + [piece]) == Concat(pieces) + piece
  {
    assert (pieces + [piece])[..|pieces|] == pieces;
  }

  /** No buffer is free twice, queued twice, or both free and queued. */
  ghost predicate Exclusive(pool: seq<Slice>, parts: seq<Part>) {
    && (forall i, j :: 0 <= i < j < |pool| ==> pool[i].buf != pool[j].buf)
    && (forall i, j :: 0 <= i < j < |parts| && parts[i].HeaderPart? && parts[j].HeaderPart? ==>
          parts[i].slice.buf != parts[j].slice.buf)
    && (forall i, j :: 0 <= i < |pool| && 0 <= j < |parts| && parts[j].HeaderPart? ==>
          pool[i].buf != parts[j].slice.buf)
  }

  /** Queueing a header in a buffer that is neither free nor queued, and then a body. */
  lemma ChunkAppend(pool: seq<Slice>, parts: seq<Part>, s: Slice, bytes: seq<Byte>)
    requires GoodParts(parts) && Alternates(parts) && |parts| % 2 == 0 && Exclusive(pool, parts) && GoodSlice(s)
    requires s.buf !in PoolArrays(pool) && s.buf !in HeaderArrays(parts)
    ensures var parts' := parts + [HeaderPart(s), PayloadPart(bytes)];
            && GoodParts(parts') && Alternates(parts') && |parts'| % 2 == 0 && Exclusive(pool, parts')
            && HeaderArrays(parts') == HeaderArrays(parts) + {s.buf}
  {
    var parts' := parts + [HeaderPart(s), PayloadPart(bytes)];
    forall i | 0 <= i < |parts| && parts[i].HeaderPart? ensures parts[i].slice.buf in HeaderArrays(parts) {}
    forall i | 0 <= i < |pool| ensures pool[i].buf in PoolArrays(pool) {}
    assert forall i :: 0 <= i < |parts| ==> parts'[i] == parts[i];
    assert parts'[|parts|] == HeaderPart(s);
  }

  class WriteHalf {
    var localChunkSize: nat
    /** Free header buffers, in no particular order. */
    var pool: seq<Slice>
    var queue: seq<Part>
    /** Everything handed to the socket. */
    var wire: seq<Byte>
    /** What was queued, part by part: no later call may change it before it is flushed. */
    ghost var pieces: seq<seq<Byte>>

    ghost predicate Valid()
      reads this, HeaderArrays(queue)
    {
      && |pieces| == |queue|
      && (forall i :: 0 <= i < |queue| && GoodPart(queue[i]) ==> PartBytes(queue[i]) == pieces[i])
      && 0 < localChunkSize
      && (forall i :: 0 <= i < |pool| ==> GoodSlice(pool[i]))
      && GoodParts(queue) && Alternates(queue) && |queue| % 2 == 0
      && Exclusive(pool, queue)
    }

    /** Every header buffer, free or queued. */
    ghost function Buffers(): set<object>
      reads this
    {
      PoolArrays(pool) + HeaderArrays(queue)
    }

    ghost function Pending(): seq<Byte>
      reads this
    {
      Concat(pieces)
    }

    /** The pool is shared: it holds whatever earlier connections put back. */
    constructor (chunkSize: nat, pool: seq<Slice>)
      requires Exclusive(pool, []) && forall i :: 0 <= i < |pool| ==> GoodSlice(pool[i])
      ensures Valid() && Pending() == [] && wire == [] && this.pool == pool && Buffers() == PoolArrays(pool)
      ensures localChunkSize == if chunkSize <= 128 then 4096 else chunkSize
    {
      localChunkSize := if chunkSize <= 128 then 4096 else chunkSize;
      this.pool, queue, wire, pieces := pool, [], [], [];
    }

    /** sync.Pool: the free buffer that `pick` numbers, or a new one. */
    method GetHeader(pick: nat) returns (s: Slice)
      requires Valid()
      modifies this`pool
      ensures Valid() && GoodSlice(s)
      ensures pick < |old(pool)| ==> s == old(pool)[pick]
      ensures pick >= |old(pool)| ==> fresh(s.buf) && s.len == s.buf.Length == 18
      ensures s.buf !in PoolArrays(pool) && s.buf !in HeaderArrays(queue)
      ensures fresh(s.buf) || s in old(pool)
      ensures fresh(s.buf) ==> s.len == HEADER_CAP
      ensures forall x :: x in pool ==> x in old(pool)
    {
      if pick < |pool| {
        s := pool[pick];
        pool := pool[..pick] + pool[pick + 1..];
      } else {
        var b := new Byte[HEADER_CAP](_ => 0);
        s := Slice(b, HEADER_CAP);
      }
    }

    /** Appends one part; nothing is sent yet. */
    method Write(p: Part) returns (n: nat)
      requires GoodPart(p) && |pieces| == |queue|
      modifies this`queue, this`pieces
      ensures queue == old(queue) + [p] && pieces == old(pieces) + [PartBytes(p)]
      ensures n == |PartBytes(p)| && Pending() == old(Pending()) + PartBytes(p)
    {
      ConcatAppend(pieces, PartBytes(p));
      queue := queue + [p];
      pieces := pieces + [PartBytes(p)];
      n := if p.HeaderPart? then p.slice.len else |p.bytes|;
    }

    /** Takes a free buffer and encodes a chunk header into it. */
    method EncodeChunkHeader(h: Header, pick: nat) returns (r: Encoded, s: Slice)
      requires Valid() && h.fmt <= 3
      modifies this`pool, PoolArrays(pool)
      ensures Valid() && Pending() == old(Pending())
      ensures forall x :: x in pool ==> x in old(pool)
      ensures r == if !ValidCsid(h.csid) then BadCsid
                   else if TooShort(old(pool), pick, h.csid) then OutOfRange
                   else Size(|HeaderBytes(h)|)
      ensures r.Size? ==>
                && s.len == |HeaderBytes(h)| && GoodSlice(s)
                && s.buf[..s.len] == HeaderBytes(h)
                && s.buf !in PoolArrays(pool) && s.buf !in HeaderArrays(queue)
                && (fresh(s.buf) || s.buf in old(PoolArrays(pool)))
    {
      s := GetHeader(pick);
      assert fresh(s.buf) || s.buf in old(PoolArrays(pool));
      assert BasicSize(h.csid) <= HEADER_CAP;
      r := EncodeHeader(h, s.buf, s.len);
      if r.Size? {
        s := Slice(s.buf, r.n);
      }
    }

    /** Encodes and queues one chunk of m: fmt 0 opens the message, fmt 3 continues it. */
    method SendChunk(m: Message, fmt: nat, body: seq<Byte>, pick: nat) returns (r: SendResult)
      requires Valid() && (fmt == 0 || fmt == 3)
      modifies this`pool, this`queue, this`pieces, PoolArrays(pool)
      ensures Valid()
      ensures forall s :: s in pool ==> s in old(pool)
      ensures r == if !ValidCsid(m.csid) then BadHeader
                   else if TooShort(old(pool), pick, m.csid) then Panicked
                   else Sent(|HeaderBytes(FirstHeader(m).(fmt := fmt))| + |body|)
      ensures !ValidCsid(m.csid) ==> queue == old(queue) && Pending() == old(Pending())
      ensures r.Sent? ==>
                var header := HeaderBytes(FirstHeader(m).(fmt := fmt));
                && EndsWithHeader(queue, |header|)
                && Pending() == old(Pending()) + header + body
      ensures fresh(Buffers() - old(Buffers()))
    {
      var e, s := EncodeChunkHeader(FirstHeader(m).(fmt := fmt), pick);
      PoolShrinks(pool, old(pool));
      if e == OutOfRange {
        return Panicked;
      }
      if !e.Size? {
        return BadHeader;
      }
      r := QueueChunk(s, body);
    }

    /** Queues an encoded header and its body. */
    method QueueChunk(s: Slice, body: seq<Byte>) returns (r: SendResult)
      requires Valid() && GoodSlice(s) && s.buf !in PoolArrays(pool) && s.buf !in HeaderArrays(queue)
      modifies this`queue, this`pieces
      ensures Valid() && r == Sent(s.len + |body|)
      ensures Pending() == old(Pending()) + s.buf[..s.len] + body
      ensures HeaderArrays(queue) == old(HeaderArrays(queue)) + {s.buf} && EndsWithHeader(queue, s.len)
    {
      hide Exclusive, Alternates;
      ChunkAppend(pool, queue, s, body);
      var n1 := Write(HeaderPart(s));
      var n2 := Write(PayloadPart(body));
      assert queue == old(queue) + [HeaderPart(s), PayloadPart(body)];
      assert forall i :: 0 <= i < old(|queue|) ==> queue[i] == old(queue)[i] && pieces[i] == old(pieces)[i];
      r := Sent(n1 + n2);
    }

    /** Splits m into chunks and queues them. The chunk count is fixed beforehand, and what is
        still unwritten is computed from the last chunk alone. `pick` numbers the free buffer of
        the first chunk; that of any later one is left to chance. */
    method SendIntegralMessage(m: Message, pick: nat) returns (r: SendResult)
      requires Valid()
      modifies this`pool, this`queue, this`pieces, PoolArrays(pool)
      ensures Valid()
      ensures m.payload == [] ==> r == EmptyMessage
      ensures m.payload != [] && !ValidCsid(m.csid) ==> r == BadHeader
      ensures m.payload != [] && ValidCsid(m.csid) ==> r.Sent? || (r == Panicked && !Fits(old(pool), m.csid))
      ensures m.payload != [] && ValidCsid(m.csid) && TooShort(old(pool), pick, m.csid) ==> r == Panicked
      ensures r == Panicked && |m.payload| <= localChunkSize ==> TooShort(old(pool), pick, m.csid)
      ensures r == EmptyMessage || r == BadHeader ==> queue == old(queue) && Pending() == old(Pending())
      ensures r.Sent? ==>
                && r == Sent(|SendBytes(m, localChunkSize)|)
                && Pending() == old(Pending()) + SendBytes(m, localChunkSize)
                && EndsWithHeader(queue, if |m.payload| <= localChunkSize then BasicSize(m.csid) + 11 else BasicSize(m.csid))
      ensures forall s :: s in pool ==> s in old(pool)
      ensures fresh(Buffers() - old(Buffers()))
    {
      hide HeaderBytes, SendBytes, SendProgress, EndsWithHeader, Fits, TooShort, Valid, Pending;
      PositiveChunk(this);
      var messageLength := |m.payload|;
      if messageLength <= 0 {
        return EmptyMessage;
      }
      var writeSize := 0;
      var unWrite := messageLength;
      var nChunks := |m.payload| / localChunkSize;
      ghost var done: seq<Byte> := [];
      var idx := 0;
      while idx <= nChunks && unWrite != 0
        invariant Valid() && 0 < localChunkSize == old(localChunkSize)
        invariant forall s :: s in pool ==> s in old(pool)
        invariant fresh(Buffers() - old(Buffers()))
        invariant idx == 0 ==> pool == old(pool)
        invariant 0 < idx && ValidCsid(m.csid) ==> !TooShort(old(pool), pick, m.csid)
        invariant idx == 0 ==> queue == old(queue) && Pending() == old(Pending()) && unWrite == messageLength && done == []
        invariant 0 < idx ==> ValidCsid(m.csid) && SendProgress(m, localChunkSize, idx * localChunkSize, unWrite == 0, done)
        invariant Pending() == old(Pending()) + done && writeSize == |done|
        invariant 0 < idx ==> EndsWithHeader(queue, if idx == 1 then BasicSize(m.csid) + 11 else BasicSize(m.csid))
        invariant idx == 1 ==> unWrite == messageLength - Min(messageLength, localChunkSize)
        invariant 1 < idx ==> localChunkSize < messageLength
      {
        var fmt := if idx > 0 then 3 else 0;
        var start := idx * localChunkSize;
        ChunkStarts(messageLength, localChunkSize, idx);
        var end := if start + localChunkSize > messageLength then messageLength else start + localChunkSize;
        var chunkSize := end - start;
        PoolShrinks(pool, old(pool));
        var p: nat := *;
        if idx == 0 { p := pick; }
        ghost var free := pool;
        var sent := SendChunk(m, fmt, m.payload[start..end], p);
        if !sent.Sent? {
          if sent == Panicked { ShortUnfit(free, old(pool), p, m.csid); }
          return sent;
        }
        ghost var header := HeaderBytes(FirstHeader(m).(fmt := fmt));
        HeaderSize(FirstHeader(m).(fmt := fmt));
        ghost var chunk := header + m.payload[start..end];
        Regroup(old(Pending()), done, header, m.payload[start..end]);
        if idx == 0 {
          FirstSent(m, localChunkSize, end, chunk);
        } else {
          NextSent(m, localChunkSize, start, end, done, chunk);
        }
        done := done + chunk;
        writeSize := writeSize + sent.n;
        unWrite := messageLength - chunkSize;
        idx := idx + 1;
      }
      ChunkStarts(messageLength, localChunkSize, idx);
      AllSent(m, localChunkSize, idx * localChunkSize, unWrite == 0, done);
      return Sent(writeSize);
    }

    /** Frees the header buffers among some parts: the entries at even positions. */
    method FreeHeaders(parts: seq<Part>)
      requires GoodParts(parts) && Alternates(parts) && Exclusive(pool, parts)
      requires forall i :: 0 <= i < |pool| ==> GoodSlice(pool[i])
      modifies this`pool
      ensures pool == old(pool) + Headers(parts) && Exclusive(pool, [])
      ensures forall i :: 0 <= i < |pool| ==> GoodSlice(pool[i])
    {
      hide Alternates, Exclusive;
      assert pool == pool + [];
      assert parts[0..] == parts;
      for idx := 0 to |parts|
        invariant pool == old(pool) + Headers(parts[..idx])
        invariant Exclusive(pool, parts[idx..])
        invariant forall i :: 0 <= i < |pool| ==> GoodSlice(pool[i])
      {
        HeadersNext(parts, idx);
        FreeOne(pool, parts[idx..]);
        assert parts[idx..][1..] == parts[idx + 1..];
        if idx % 2 == 0 {
          pool := pool + [parts[idx].slice];
        }
      }
      assert parts[..|parts|] == parts && parts[|parts|..] == [];
    }

    /** Hands everything queued to the socket, then frees the header buffers, at the length they were
        queued with. */
    method Flush() returns (n: nat)
      requires Valid()
      modifies this`queue, this`pieces, this`pool, this`wire
      ensures Valid() && queue == [] && Pending() == []
      ensures n == |old(Pending())| && wire == old(wire) + old(Pending())
      ensures pool == old(pool) + Headers(old(queue)) && Buffers() == old(Buffers())
    {
      hide Alternates, Exclusive;
      if |queue| <= 0 {
        assert wire == wire + [] && pool == pool + [];
        return 0;
      }
      var parts := queue;
      var out: seq<Byte> := [];
      assert pieces[..0] == [];
      for idx := 0 to |parts|
        invariant out == Concat(pieces[..idx])
        modifies {}
      {
        var p := parts[idx];
        ConcatAppend(pieces[..idx], pieces[idx]);
        assert pieces[..idx + 1] == pieces[..idx] + [pieces[idx]];
        out := out + if p.HeaderPart? then p.slice.buf[..p.slice.len] else p.bytes;
      }
      assert pieces[..|parts|] == pieces;
      FreeHeaders(parts);
      wire := wire + out;
      queue, pieces := [], [];
      n := |out|;
      NothingQueued(queue);
      HeadersFreed(old(pool), parts);
    }
  }

  /** A message of several chunks leaves, once it is flushed, a free buffer of its basic header's
      length: one byte for a small csid. From then on a larger csid may meet that buffer and
      panic. */
  method LeavesShortBuffer(w: WriteHalf, m: Message) returns (r: SendResult)
    requires w.Valid() && w.localChunkSize < |m.payload|
    modifies w`pool, w`queue, w`pieces, w`wire, w.Buffers()
    ensures w.Valid() && fresh(w.Buffers() - old(w.Buffers()))
    ensures r.Sent? && m.csid < 64 ==> exists s :: s in w.pool && s.len == 1
    ensures r.Sent? && m.csid < 64 ==> forall csid :: 64 <= csid <= 65599 ==> !Fits(w.pool, csid)
    ensures !r.Sent? ==> (r == BadHeader && !ValidCsid(m.csid)) || (r == Panicked && !Fits(old(w.pool), m.csid))
  {
    hide WriteHalf.Valid, WriteHalf.Pending, SendBytes, Headers, EndsWithHeader, Fits;
    var pick: nat := *;
    r := w.SendIntegralMessage(m, pick);
    if r.Sent? {
      ghost var s := LastQueued(w, BasicSize(m.csid));
      var n := w.Flush();
      assert s in w.pool;
      if m.csid < 64 { OneByteUnfit(w.pool, s); }
    }
  }

  /** The panic is reached: a message of several chunks on a csid below 64, a flush, and one on a
      csid of 64 or more whose first header takes the buffer that came back. */
  method PanicReached(w: WriteHalf, m: Message, later: Message) returns (r: SendResult)
    requires w.Valid() && 2 <= m.csid < 64 && w.localChunkSize < |m.payload|
    requires 64 <= later.csid <= 65599 && later.payload != []
    modifies w`pool, w`queue, w`pieces, w`wire, w.Buffers()
    ensures r == Panicked
  {
    hide WriteHalf.Valid, SendBytes, Headers, EndsWithHeader, Fits;
    SmallFits(w, m.csid);
    var sent := LeavesShortBuffer(w, m);
    ghost var s :| s in w.pool && s.len == 1;
    ghost var i :| 0 <= i < |w.pool| && w.pool[i] == s;
    assert PoolArrays(w.pool) <= w.Buffers();
    var pick: nat :| pick < |w.pool| && w.pool[pick].len == 1;
    r := w.SendIntegralMessage(later, pick);
  }

  lemma LastQueued(w: WriteHalf, len: nat) returns (s: Slice)
    requires w.Valid() && EndsWithHeader(w.queue, len)
    ensures s in Headers(w.queue) && s.len == len
  {
    LastFreed(w.queue);
    s := w.queue[|w.queue| - 2].slice;
  }

  lemma OneByteUnfit(pool: seq<Slice>, s: Slice)
    requires s in pool && s.len == 1
    ensures forall csid :: 64 <= csid <= 65599 ==> !Fits(pool, csid)
  {
  }

  lemma LastFreed(parts: seq<Part>)
    requires Alternates(parts) && |parts| % 2 == 0 && 2 <= |parts|
    ensures parts[|parts| - 2].HeaderPart? && parts[|parts| - 2].slice in Headers(parts)
  {
    var n := |parts|;
    assert parts[..n - 1][..n - 2] == parts[..n - 2];
    var front := parts[..n - 1];
    assert front[n - 2] == parts[n - 2] && parts[n - 1].PayloadPart?;
    assert Headers(front) == Headers(front[..n - 2]) + [parts[n - 2].slice];
    assert Headers(parts) == Headers(front) + [];
  }

  /** The header buffers among some parts. */
  function Headers(parts: seq<Part>): seq<Slice> {
    if parts == [] then []
    else Headers(parts[..|parts| - 1])
         + if parts[|parts| - 1].HeaderPart? then [parts[|parts| - 1].slice] else []
  }

  lemma HeadersNext(parts: seq<Part>, i: nat)
    requires i < |parts| && Alternates(parts)
    ensures Headers(parts[..i + 1]) == Headers(parts[..i]) + if i % 2 == 0 then [parts[i].slice] else []
    ensures parts[i].HeaderPart? <==> i % 2 == 0
  {
    assert parts[..i + 1][..i] == parts[..i];
  }

  /** Moving the first queued header to the pool, or dropping the first queued payload. */
  lemma FreeOne(pool: seq<Slice>, parts: seq<Part>)
    requires parts != [] && Exclusive(pool, parts)
    ensures Exclusive(if parts[0].HeaderPart? then pool + [parts[0].slice] else pool, parts[1..])
  {
  }

  lemma {:induction false} HeadersFreed(pool: seq<Slice>, parts: seq<Part>)
    ensures PoolArrays(pool + Headers(parts)) == PoolArrays(pool) + HeaderArrays(parts)
    decreases |parts|
  {
    if parts == [] {
      assert pool + [] == pool;
    } else {
      var n := |parts| - 1;
      HeadersFreed(pool, parts[..n]);
      var last := if parts[n].HeaderPart? then [parts[n].slice] else [];
      var before := pool + Headers(parts[..n]);
      assert pool + Headers(parts) == before + last;
      PoolJoin(before, last);
      assert last != [] ==> last[0].buf in PoolArrays(last);
      HeaderArraysJoin(parts);
    }
  }

  lemma PoolJoin(a: seq<Slice>, b: seq<Slice>)
    ensures PoolArrays(a + b) == PoolArrays(a) + PoolArrays(b)
  {
    var c := a + b;
    forall i | 0 <= i < |a| ensures a[i].buf in PoolArrays(c) { assert c[i] == a[i]; }
    forall i | 0 <= i < |b| ensures b[i].buf in PoolArrays(c) { assert c[|a| + i] == b[i]; }
  }

  lemma HeaderArraysJoin(parts: seq<Part>)
    requires parts != []
    ensures var n := |parts| - 1;
            HeaderArrays(parts) == HeaderArrays(parts[..n]) + if parts[n].HeaderPart? then {parts[n].slice.buf} else {}
  {
    var n := |parts| - 1;
    forall i | 0 <= i < n && parts[i].HeaderPart? ensures parts[i].slice.buf in HeaderArrays(parts[..n]) {
      assert parts[..n][i] == parts[i];
    }
  }

  lemma NothingQueued(parts: seq<Part>)
    requires parts == []
    ensures Alternates(parts)
  {
  }

  lemma PoolShrinks(pool: seq<Slice>, before: seq<Slice>)
    requires forall s :: s in pool ==> s in before
    ensures PoolArrays(pool) <= PoolArrays(before)
  {
    forall i | 0 <= i < |pool| ensures pool[i].buf in PoolArrays(before) {
      assert pool[i] in before;
      var j :| 0 <= j < |before| && before[j] == pool[i];
    }
  }

  lemma HeaderSize(h: Header)
    requires ValidCsid(h.csid) && h.fmt <= 3
    ensures |HeaderBytes(h)| == BasicSize(h.csid) + MessageSize(h.fmt)
  {
  }

  lemma FitsShrinks(pool: seq<Slice>, before: seq<Slice>, csid: nat)
    requires (forall s :: s in pool ==> s in before) && Fits(before, csid)
    ensures Fits(pool, csid)
  {
  }

  lemma PositiveChunk(w: WriteHalf)
    requires w.Valid()
    ensures 0 < w.localChunkSize
  {
  }

  lemma ShortUnfit(pool: seq<Slice>, before: seq<Slice>, pick: nat, csid: nat)
    requires (forall s :: s in pool ==> s in before) && TooShort(pool, pick, csid)
    ensures !Fits(before, csid)
  {
    assert pool[pick] in before;
  }

  /** One byte is enough for a small csid, and every free buffer has that. */
  lemma SmallFits(w: WriteHalf, csid: nat)
    requires w.Valid() && csid < 64
    ensures Fits(w.pool, csid)
  {
  }

  lemma Regroup(a: seq<Byte>, b: seq<Byte>, c: seq<Byte>, d: seq<Byte>)
    ensures a + b + c + d == a + (b + (c + d))
  {
  }

  /** The chunks up to number n / chunkSize are those that start inside the payload or at its end. */
  lemma ChunkStarts(n: nat, chunkSize: nat, idx: nat)
    requires 0 < chunkSize
    ensures idx <= n / chunkSize <==> idx * chunkSize <= n
    ensures 0 <= idx * chunkSize
    ensures idx * chunkSize + chunkSize == (idx + 1) * chunkSize
    ensures idx == 0 ==> idx * chunkSize == 0
    ensures 0 < idx ==> chunkSize <= idx * chunkSize
  {
    Words.DivMod(n, chunkSize);
    var q := n / chunkSize;
    if idx < q {
      Words.MulAtLeast(q - idx, chunkSize);
      assert q * chunkSize == idx * chunkSize + (q - idx) * chunkSize;
    } else if q < idx {
      Words.MulAtLeast(idx - q, chunkSize);
      assert idx * chunkSize == q * chunkSize + (idx - q) * chunkSize;
    }
    if 0 < idx { Words.MulAtLeast(idx, chunkSize); }
  }

  /** Either the whole message has been written, or all but the continuation from payload byte
      `start` on. */
  ghost predicate SendProgress(m: Message, chunkSize: nat, start: int, finished: bool, done: seq<Byte>)
    requires ValidCsid(m.csid) && 0 < chunkSize
  {
    if finished || start > |m.payload| then done == SendBytes(m, chunkSize)
    else 0 < start && SendBytes(m, chunkSize) == done + Rest(m, start, chunkSize)
  }

  lemma AllSent(m: Message, chunkSize: nat, start: int, finished: bool, done: seq<Byte>)
    requires ValidCsid(m.csid) && 0 < chunkSize && SendProgress(m, chunkSize, start, finished, done)
    requires finished || start > |m.payload|
    ensures done == SendBytes(m, chunkSize)
  {
  }

  lemma FirstSent(m: Message, chunkSize: nat, end: nat, chunk: seq<Byte>)
    requires ValidCsid(m.csid) && 0 < chunkSize && m.payload != [] && end == Min(chunkSize, |m.payload|)
    requires chunk == HeaderBytes(FirstHeader(m)) + m.payload[0..end]
    ensures SendProgress(m, chunkSize, chunkSize, |m.payload| - end == 0, [] + chunk)
  {
    SendSplits(m, chunkSize);
    assert chunk == FirstChunk(m, chunkSize);
    assert [] + chunk == chunk;
  }

  lemma NextSent(m: Message, chunkSize: nat, start: nat, end: nat, done: seq<Byte>, chunk: seq<Byte>)
    requires ValidCsid(m.csid) && 0 < chunkSize && 0 < start <= |m.payload|
    requires end == Min(start + chunkSize, |m.payload|)
    requires SendProgress(m, chunkSize, start, false, done)
    requires chunk == HeaderBytes(FirstHeader(m).(fmt := 3)) + m.payload[start..end]
    ensures SendProgress(m, chunkSize, start + chunkSize, false, done + chunk)
  {
    assert chunk == NextChunk(m, start, chunkSize);
    if start < |m.payload| {
      RestSplits(m, start, chunkSize);
      if start + chunkSize <= |m.payload| {
        assert done + (chunk + Rest(m, start + chunkSize, chunkSize)) == done + chunk + Rest(m, start + chunkSize, chunkSize);
      }
    } else {
      assert Rest(m, start, chunkSize) == chunk;
    }
  }
}
