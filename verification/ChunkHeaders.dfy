/** Chunk headers: pkg/rtmp/chunk/basic_header.go, message_header.go and header.go, after
    sections 5.3.1.1 and 5.3.1.2 of the RTMP Specification 1.0. */
module ChunkHeaders {
  import opened Bytes

  datatype Header = Header(fmt: nat, csid: nat, timestamp: nat, messageLength: nat, typeId: nat, streamId: nat)

  /** `OutOfRange` stands for the panic of an index or a slice bound. */
  datatype Encoded = Size(n: nat) | BadCsid | BadFmt | OutOfRange

  /** Capacity of the pooled header buffers. */
  const HEADER_CAP: nat := 18

  const NO_TIMESTAMP: nat := 0xffffff

  predicate ValidCsid(csid: nat) { 2 <= csid <= 65599 }

  function BasicSize(csid: nat): nat {
    if csid < 64 then 1 else if csid < 320 then 2 else 3
  }

  /** The first byte carries the low two bits of fmt above either the csid or a length mark. */
  function BasicBytes(fmt: nat, csid: nat): (s: seq<Byte>)
    requires ValidCsid(csid)
    ensures |s| == BasicSize(csid)
  {
    var b1 := (fmt % 4) * 64;
    if csid < 64 then [b1 + csid]
    else if csid < 320 then [b1, csid - 64]
    else [b1 + 1] + ToLE(csid - 64, 2)
  }

  function MessageSize(fmt: nat): nat
    requires fmt <= 3
  {
    if fmt == 0 then 11 else if fmt == 1 then 7 else if fmt == 2 then 3 else 0
  }

  function MessageBytes(h: Header): (s: seq<Byte>)
    requires h.fmt <= 3
    ensures |s| == MessageSize(h.fmt)
  {
    var time := TimestampBytes(h.timestamp);
    var lengthAndType := ToBE(h.messageLength, 3) + ToBE(h.typeId, 1);
    match h.fmt
    case 0 => time + lengthAndType + ToLE(h.streamId, 4)
    case 1 => time + lengthAndType
    case 2 => time
    case _ => []
  }

  function HeaderBytes(h: Header): seq<Byte>
    requires ValidCsid(h.csid) && h.fmt <= 3
  {
    BasicBytes(h.fmt, h.csid) + MessageBytes(h)
  }

  /** The three forms of a basic header (section 5.3.1.1): one byte up to csid 63, two up to 319,
      three up to 65599, the last two counting from 64. */
  lemma BasicLayout(fmt: nat, csid: nat)
    requires fmt <= 3 && ValidCsid(csid)
    ensures BasicBytes(fmt, csid)
            == if csid <= 63 then [64 * fmt + csid]
               else if csid <= 319 then [64 * fmt, csid - 64]
               else [64 * fmt + 1, (csid - 64) % 256, (csid - 64) / 256]
  {
    EncodedBytes(if csid >= 64 then csid - 64 else 0);
  }

  /** The message header (section 5.3.1.2): all numbers are big-endian but the stream id, and a
      timestamp that needs more than 24 bits, or all of them, is replaced by 0xffffff. */
  lemma MessageLayout(h: Header)
    requires h.fmt <= 3
    ensures var t := if h.timestamp < 0xffffff then h.timestamp else 0xffffff;
            var n, sid := h.messageLength, h.streamId;
            var time := [t / 65536, t / 256 % 256, t % 256];
            var rest := [n / 65536 % 256, n / 256 % 256, n % 256, h.typeId % 256];
            MessageBytes(h)
            == if h.fmt == 0 then time + rest + [sid % 256, sid / 256 % 256, sid / 65536 % 256, sid / 0x100_0000 % 256]
               else if h.fmt == 1 then time + rest
               else if h.fmt == 2 then time
               else []
  {
    EncodedBytes(if h.timestamp < 0xffffff then h.timestamp else 0xffffff);
    EncodedBytes(h.messageLength);
    EncodedBytes(h.typeId);
    EncodedBytes(h.streamId);
    hide ToBE, ToLE;
  }

  // ---------------------------------------------------------------- reading headers

  /** `bytes` stand in the input from position pos on. */
  predicate At(input: seq<Byte>, pos: nat, bytes: seq<Byte>) {
    pos + |bytes| <= |input| && input[pos..pos + |bytes|] == bytes
  }

  lemma AtJoin(input: seq<Byte>, pos: nat, a: seq<Byte>, b: seq<Byte>)
    ensures At(input, pos, a + b) <==> At(input, pos, a) && At(input, pos + |a|, b)
  {
    if pos + |a| + |b| <= |input| {
      var s := input[pos..pos + |a| + |b|];
      assert s[..|a|] == input[pos..pos + |a|] && s[|a|..] == input[pos + |a|..pos + |a| + |b|];
      assert (a + b)[..|a|] == a && (a + b)[|a|..] == b;
      assert s == s[..|a|] + s[|a|..];
    }
  }

  lemma AtIndex(input: seq<Byte>, pos: nat, bytes: seq<Byte>, i: nat)
    requires At(input, pos, bytes) && i < |bytes|
    ensures input[pos + i] == bytes[i]
  {
    assert input[pos..pos + |bytes|][i] == input[pos + i];
  }

  datatype Basic = Basic(fmt: nat, csid: nat, next: nat) | Short

  /** The basic header at position pos of the input. */
  function ParseBasic(input: seq<Byte>, pos: nat): (b: Basic)
    ensures b.Basic? ==> b.fmt <= 3 && ValidCsid(b.csid) && pos < b.next <= pos + 3 && b.next <= |input|
  {
    if pos >= |input| then Short else
    var mark := input[pos] % 64;
    var fmt := input[pos] / 64;
    if mark >= 2 then Basic(fmt, mark, pos + 1)
    else if pos + 2 + mark > |input| then Short
    else if mark == 0 then Basic(fmt, input[pos + 1] as int + 64, pos + 2)
    else Basic(fmt, input[pos + 1] as int + 256 * input[pos + 2] as int + 64, pos + 3)
  }

  /** The basic header is self-delimiting: whatever follows it, it reads back as the fmt and
      csid that were written. */
  lemma BasicRoundTrip(input: seq<Byte>, pos: nat, fmt: nat, csid: nat)
    requires fmt <= 3 && ValidCsid(csid) && At(input, pos, BasicBytes(fmt, csid))
    ensures ParseBasic(input, pos) == Basic(fmt, csid, pos + BasicSize(csid))
  {
    var bytes := BasicBytes(fmt, csid);
    AtIndex(input, pos, bytes, 0);
    if csid >= 64 {
      AtIndex(input, pos, bytes, 1);
    }
    if csid >= 320 {
      AtIndex(input, pos, bytes, 2);
      var v := csid - 64;
      assert ToLE(v, 2) == [v % 256] + ToLE(v / 256, 1);
      assert ToLE(v / 256, 1) == [v / 256 % 256] + ToLE(v / 256 / 256, 0);
    }
  }

  /** Big-endian 24-bit and 8-bit and little-endian 32-bit numbers at a position. */
  function BE24(s: seq<Byte>, pos: nat): (v: nat)
    requires pos + 3 <= |s|
    ensures v < 0x100_0000
  {
    65536 * s[pos] as int + 256 * s[pos + 1] as int + s[pos + 2] as int
  }

  function BE32(s: seq<Byte>, pos: nat): (v: nat)
    requires pos + 4 <= |s|
    ensures v < U32
  {
    0x100_0000 * s[pos] as int + 65536 * s[pos + 1] as int + 256 * s[pos + 2] as int + s[pos + 3] as int
  }

  function LE32(s: seq<Byte>, pos: nat): (v: nat)
    requires pos + 4 <= |s|
    ensures v < U32
  {
    s[pos] as int + 256 * s[pos + 1] as int + 65536 * s[pos + 2] as int + 0x100_0000 * s[pos + 3] as int
  }

  lemma FixedWidths(s: seq<Byte>)
    ensures |s| == 1 ==> FromBE(s) == s[0] && FromLE(s) == s[0]
    ensures |s| == 2 ==> FromLE(s) == s[0] as int + 256 * s[1] as int
    ensures |s| == 3 ==> FromBE(s) == BE24(s, 0)
    ensures |s| == 4 ==> FromBE(s) == BE32(s, 0) && FromLE(s) == LE32(s, 0)
  {
    if |s| >= 1 {
      BESnoc(s);
      assert FromLE(s) == s[0] + 256 * FromLE(s[1..]);
    }
    if |s| >= 2 {
      BESnoc(s[..|s| - 1]);
      assert FromLE(s[1..]) == s[1] + 256 * FromLE(s[2..]);
    }
    if |s| >= 3 {
      BESnoc(s[..|s| - 2]);
      assert FromLE(s[2..]) == s[2] + 256 * FromLE(s[3..]);
    }
    if |s| == 4 {
      BESnoc(s[..1]);
      assert FromLE(s[3..]) == s[3] + 256 * FromLE(s[4..]);
    }
  }

  lemma BESnoc(s: seq<Byte>)
    requires s != []
    ensures FromBE(s) == 256 * FromBE(s[..|s| - 1]) + s[|s| - 1]
    ensures |s| >= 2 ==> s[..|s| - 1][..|s| - 2] == s[..|s| - 2]
  {
  }

  /** The fields a message header of the given fmt carries read back as written. */
  lemma FieldsRoundTrip(input: seq<Byte>, pos: nat, h: Header)
    requires h.fmt <= 3 && h.timestamp < NO_TIMESTAMP
    requires h.messageLength < 0x100_0000 && h.typeId < 256 && h.streamId < U32
    requires At(input, pos, MessageBytes(h))
    ensures h.fmt <= 2 ==> BE24(input, pos) == h.timestamp
    ensures h.fmt <= 1 ==> BE24(input, pos + 3) == h.messageLength && input[pos + 6] == h.typeId
    ensures h.fmt == 0 ==> LE32(input, pos + 7) == h.streamId
  {
    if h.fmt <= 2 {
      var s := MessageBytes(h);
      assert s[..3] == ToBE(h.timestamp, 3);
      Pow256Small();
      FieldReads(input, pos, s, 0, h.timestamp, 3, true);
      if h.fmt <= 1 {
        assert s[3..6] == ToBE(h.messageLength, 3) && s[6..7] == ToBE(h.typeId, 1);
        FieldReads(input, pos, s, 3, h.messageLength, 3, true);
        FieldReads(input, pos, s, 6, h.typeId, 1, true);
        if h.fmt == 0 {
          assert s[7..11] == ToLE(h.streamId, 4);
          FieldReads(input, pos, s, 7, h.streamId, 4, false);
        }
      }
    }
  }

  lemma FieldReads(input: seq<Byte>, pos: nat, s: seq<Byte>, at: nat, v: nat, n: nat, bigEndian: bool)
    requires At(input, pos, s) && at + n <= |s| && s[at..at + n] == Encode(v, n, bigEndian) && v < Pow256(n)
    requires n == 1 || n == 3 || n == 4
    ensures pos + at + n <= |input|
    ensures n == 1 ==> input[pos + at] == v
    ensures n == 3 && bigEndian ==> BE24(input, pos + at) == v
    ensures n == 4 && !bigEndian ==> LE32(input, pos + at) == v
  {
    var f := s[at..at + n];
    FitsExactly(v, n, bigEndian);
    FixedWidths(f);
    forall i: nat | i < n ensures input[pos + at + i] == f[i] {
      AtIndex(input, pos, s, at + i);
    }
    assert input[pos + at + 0] == f[0];
    if n >= 3 { assert input[pos + at + 1] == f[1] && input[pos + at + 2] == f[2]; }
    if n == 4 { assert input[pos + at + 3] == f[3]; }
  }

  // ---------------------------------------------------------------- encoding in place

  /** Encodes a basic header into p, a slice of length `len` whose capacity is p.Length.
      Indexing needs the length, reslicing only the capacity. */
  method EncodeBasic(fmt: nat, csid: nat, p: array<Byte>, len: nat) returns (r: Encoded)
    requires fmt < 256 && len <= p.Length && HEADER_CAP <= p.Length
    modifies p
    ensures r == if !ValidCsid(csid) then BadCsid
                 else if len < (if 64 <= csid < 320 then 2 else 1) then OutOfRange
                 else Size(BasicSize(csid))
    ensures !ValidCsid(csid) ==> p[..] == old(p[..])
    ensures r.Size? ==> p[..] == Overlay(BasicBytes(fmt, csid), 0, old(p[..]))
  {
    var b1 := (fmt * 64) % 256;
    assert b1 == (fmt % 4) * 64;
    if csid < 2 {
      return BadCsid;
    } else if csid <= 65599 && len < 1 {
      return OutOfRange;
    } else if csid < 64 {
      p[0] := b1 + csid;
      return Size(1);
    } else if csid < 320 {
      p[0] := b1;
      if len < 2 {
        return OutOfRange;
      }
      p[1] := csid - 64;
      return Size(2);
    } else if csid <= 65599 {
      p[0] := b1 + 1;
      UintAsBytes(csid - 64, p, 1, 3, false);
      return Size(3);
    } else {
      return BadCsid;
    }
  }

  /** Encodes a message header at offset `at` of p. */
  method EncodeMessage(h: Header, p: array<Byte>, at: nat) returns (r: Encoded)
    requires at + 11 <= p.Length
    modifies p
    ensures r == if h.fmt <= 3 then Size(MessageSize(h.fmt)) else BadFmt
    ensures p[..] == if h.fmt <= 3 then Overlay(MessageBytes(h), at, old(p[..])) else old(p[..])
  {
    if h.fmt > 3 {
      return BadFmt;
    } else if h.fmt == 3 {
      return Size(0);
    }
    ghost var s := p[..];
    EncodeTimestamp(h.timestamp, p, at);
    if h.fmt <= 1 {
      EncodeRest(h, p, at + 3);
      OverlayJoin(TimestampBytes(h.timestamp), RestBytes(h), at, s);
      assert TimestampBytes(h.timestamp) + RestBytes(h) == MessageBytes(h);
    }
    return Size(MessageSize(h.fmt));
  }

  function TimestampBytes(timestamp: nat): (s: seq<Byte>)
    ensures |s| == 3
  {
    ToBE(if timestamp < NO_TIMESTAMP then timestamp else NO_TIMESTAMP, 3)
  }

  method EncodeTimestamp(timestamp: nat, p: array<Byte>, at: nat)
    requires at + 3 <= p.Length
    modifies p
    ensures p[..] == Overlay(TimestampBytes(timestamp), at, old(p[..]))
  {
    if timestamp >= NO_TIMESTAMP {
      UintAsBytes(NO_TIMESTAMP, p, at, at + 3, true);
    } else {
      UintAsBytes(timestamp, p, at, at + 3, true);
    }
  }

  /** Length, type and, for fmt 0, stream id. */
  function RestBytes(h: Header): seq<Byte> {
    ToBE(h.messageLength, 3) + ToBE(h.typeId, 1) + (if h.fmt == 0 then ToLE(h.streamId, 4) else [])
  }

  method EncodeRest(h: Header, p: array<Byte>, at: nat)
    requires h.fmt <= 1 && at + 8 <= p.Length
    modifies p
    ensures p[..] == Overlay(RestBytes(h), at, old(p[..]))
  {
    ghost var s := p[..];
    UintAsBytes(h.messageLength, p, at, at + 3, true);
    UintAsBytes(h.typeId, p, at + 3, at + 4, true);
    OverlayJoin(ToBE(h.messageLength, 3), ToBE(h.typeId, 1), at, s);
    ghost var front := ToBE(h.messageLength, 3) + ToBE(h.typeId, 1);
    assert p[..] == Overlay(front, at, s);
    if h.fmt == 0 {
      UintAsBytes(h.streamId, p, at + 4, at + 8, false);
      OverlayJoin(front, ToLE(h.streamId, 4), at, s);
    } else {
      assert RestBytes(h) == front;
    }
  }

  /** Encodes both headers one after the other. A bad csid leaves p alone; a bad fmt is noticed
      only after the basic header was written. The second encoder starts at p[basic size:],
      which panics when it lies beyond the slice's length. */
  method EncodeHeader(h: Header, p: array<Byte>, len: nat) returns (r: Encoded)
    requires h.fmt < 256 && len <= p.Length && HEADER_CAP <= p.Length
    modifies p
    ensures r == if !ValidCsid(h.csid) then BadCsid
                 else if len < BasicSize(h.csid) then OutOfRange
                 else if h.fmt > 3 then BadFmt
                 else Size(|HeaderBytes(h)|)
    ensures r != OutOfRange ==>
              p[..] == if !ValidCsid(h.csid) then old(p[..])
                     else if h.fmt > 3 then Overlay(BasicBytes(h.fmt, h.csid), 0, old(p[..]))
                     else Overlay(HeaderBytes(h), 0, old(p[..]))
  {
    r := EncodeBasic(h.fmt, h.csid, p, len);
    if !r.Size? {
      return r;
    }
    var basicSize := r.n;
    if len < basicSize {
      return OutOfRange;
    }
    r := EncodeMessage(h, p, basicSize);
    if r.Size? {
      OverlayJoin(BasicBytes(h.fmt, h.csid), MessageBytes(h), 0, old(p[..]));
      r := Size(basicSize + r.n);
    }
  }
}
