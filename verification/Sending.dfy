/** The byte string that SendIntegralMessage of pkg/rtmp/connection/connection.go puts on the
    wire for one message. */
module Sending {
  import Words
  import opened Bytes
  import opened ChunkHeaders
  import opened Receiving

  /** A message the sender can express: 24-bit length, one byte of type, no extended timestamp. */
  predicate Sendable(m: Message) {
    && 2 <= m.csid <= MAX_CSID
    && m.timestamp < NO_TIMESTAMP
    && m.typeId < 256 && m.streamId < U32
    && 0 < |m.payload| < 0x100_0000
  }

  function FirstHeader(m: Message): Header {
    Header(0, m.csid, m.timestamp, |m.payload|, m.typeId, m.streamId)
  }

  /** The chunks after the first: a bare basic header of fmt 3 before each piece. A payload that
      ends exactly at a chunk boundary is followed by one more, empty, chunk. */
  function ContinuationBytes(csid: nat, rest: seq<Byte>, chunkSize: nat): (s: seq<Byte>)
    requires ValidCsid(csid) && 0 < chunkSize
    decreases |rest|
  {
    BasicBytes(3, csid)
    + if |rest| < chunkSize then rest
      else rest[..chunkSize] + ContinuationBytes(csid, rest[chunkSize..], chunkSize)
  }

  function SendBytes(m: Message, chunkSize: nat): seq<Byte>
    requires ValidCsid(m.csid) && 0 < chunkSize
  {
    HeaderBytes(FirstHeader(m))
    + if |m.payload| <= chunkSize then m.payload
      else m.payload[..chunkSize] + ContinuationBytes(m.csid, m.payload[chunkSize..], chunkSize)
  }

  /** Example 2 of section 5.3.2 of the RTMP Specification 1.0: 307 bytes of video on csid 4 in
      chunks of 128 bytes are three chunks of 140, 129 and 52 bytes. */
  lemma SpecificationExample(payload: seq<Byte>)
    requires |payload| == 307
    ensures SendBytes(Message(4, 1000, 9, 12346, payload), 128)
            == [4, 0, 3, 232, 0, 1, 51, 9, 58, 48, 0, 0] + payload[..128]
               + [196] + payload[128..256]
               + [196] + payload[256..]
  {
    hide HeaderBytes, BasicBytes, ContinuationBytes;
    var a, b, c := payload[..128], payload[128..256], payload[256..];
    ExampleHeaders(payload);
    LastPiece(4, c, 128);
    FullPiece(4, b, c, 128);
    assert payload[128..] == b + c;
  }

  lemma ExampleHeaders(payload: seq<Byte>)
    requires |payload| == 307
    ensures HeaderBytes(FirstHeader(Message(4, 1000, 9, 12346, payload))) == [4, 0, 3, 232, 0, 1, 51, 9, 58, 48, 0, 0]
    ensures BasicBytes(3, 4) == [196]
  {
    hide MessageBytes, BasicBytes;
    var h := FirstHeader(Message(4, 1000, 9, 12346, payload));
    BasicLayout(0, 4);
    BasicLayout(3, 4);
    MessageLayout(h);
    assert MessageBytes(h) == [0, 3, 232, 0, 1, 51, 9, 58, 48, 0, 0];
  }

  lemma LastPiece(csid: nat, rest: seq<Byte>, chunkSize: nat)
    requires ValidCsid(csid) && |rest| < chunkSize
    ensures ContinuationBytes(csid, rest, chunkSize) == BasicBytes(3, csid) + rest
  {
  }

  lemma FullPiece(csid: nat, piece: seq<Byte>, rest: seq<Byte>, chunkSize: nat)
    requires ValidCsid(csid) && |piece| == chunkSize && 0 < chunkSize
    ensures ContinuationBytes(csid, piece + rest, chunkSize)
            == BasicBytes(3, csid) + (piece + ContinuationBytes(csid, rest, chunkSize))
  {
    assert (piece + rest)[..chunkSize] == piece && (piece + rest)[chunkSize..] == rest;
  }

  /** The guard a caller can check: the splitter ends with the payload and not one chunk late. */
  predicate SplitsCleanly(length: nat, chunkSize: nat)
    requires 0 < chunkSize
  {
    length <= chunkSize || length % chunkSize != 0
  }

  /** A payload of n bytes ends exactly where a chunk ends. */
  predicate OnBoundary(n: nat, chunkSize: nat)
    requires 0 < chunkSize
    decreases n
  {
    if n < chunkSize then n == 0 else OnBoundary(n - chunkSize, chunkSize)
  }

  lemma {:induction false} BoundaryIsMultiple(n: nat, chunkSize: nat)
    requires 0 < chunkSize
    ensures OnBoundary(n, chunkSize) <==> n % chunkSize == 0
    decreases n
  {
    if n < chunkSize {
      Words.ModUnique(n, chunkSize, 0, n);
    } else {
      DivStep(n, chunkSize);
      BoundaryIsMultiple(n - chunkSize, chunkSize);
    }
  }

  /** The bytes of the empty chunk the splitter appends. */
  function Surplus(m: Message, chunkSize: nat): seq<Byte>
    requires ValidCsid(m.csid) && 0 < chunkSize
  {
    if SplitsCleanly(|m.payload|, chunkSize) then [] else BasicBytes(3, m.csid)
  }

  /** The number of chunks the splitter emits. */
  function ChunkCount(length: nat, chunkSize: nat): nat
    requires 0 < chunkSize
  {
    if length <= chunkSize then 1 else length / chunkSize + 1
  }

  /** The bytes of one message: payload, one full header, and a basic header per chunk. */
  lemma SendLength(m: Message, chunkSize: nat)
    requires ValidCsid(m.csid) && 0 < chunkSize
    ensures |SendBytes(m, chunkSize)|
         == |m.payload| + 11 + ChunkCount(|m.payload|, chunkSize) * BasicSize(m.csid)
  {
    if |m.payload| > chunkSize {
      ContinuationLength(m.csid, m.payload[chunkSize..], chunkSize);
      DivStep(|m.payload|, chunkSize);
      var k := (|m.payload| - chunkSize) / chunkSize + 1;
      assert (k + 1) * BasicSize(m.csid) == k * BasicSize(m.csid) + BasicSize(m.csid);
    }
  }

  lemma DivStep(n: nat, d: nat)
    requires 0 < d <= n
    ensures n / d == (n - d) / d + 1 && n % d == (n - d) % d
  {
    Words.DivMod(n - d, d);
    assert ((n - d) / d + 1) * d == ((n - d) / d) * d + d;
    Words.ModUnique(n, d, (n - d) / d + 1, (n - d) % d);
  }

  lemma {:induction false} ContinuationLength(csid: nat, rest: seq<Byte>, chunkSize: nat)
    requires ValidCsid(csid) && 0 < chunkSize
    ensures |ContinuationBytes(csid, rest, chunkSize)|
         == |rest| + (|rest| / chunkSize + 1) * BasicSize(csid)
    decreases |rest|
  {
    if |rest| < chunkSize {
      Words.ModUnique(|rest|, chunkSize, 0, |rest|);
    } else {
      ContinuationLength(csid, rest[chunkSize..], chunkSize);
      DivStep(|rest|, chunkSize);
      var k := (|rest| - chunkSize) / chunkSize + 1;
      assert (k + 1) * BasicSize(csid) == k * BasicSize(csid) + BasicSize(csid);
    }
  }
}
