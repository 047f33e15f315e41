/** The mixed-endian integer loops of pkg/rtmp/common/common.go. */
module Bytes {
  import opened Words

  type Byte = x: int | 0 <= x < 256

  /** One more than the largest uint32. */
  const U32: nat := 0x1_0000_0000

  function Pow256(n: nat): (p: nat)
    ensures 1 <= p
  {
    if n == 0 then 1 else 256 * Pow256(n - 1)
  }

  /** The n low-order bytes of v, most significant first. */
  function ToBE(v: nat, n: nat): (s: seq<Byte>)
    ensures |s| == n
  {
    if n == 0 then [] else ToBE(v / 256, n - 1) + [v % 256]
  }

  /** The n low-order bytes of v, least significant first. */
  function ToLE(v: nat, n: nat): (s: seq<Byte>)
    ensures |s| == n
  {
    if n == 0 then [] else [v % 256] + ToLE(v / 256, n - 1)
  }

  function FromBE(s: seq<Byte>): nat {
    if s == [] then 0 else 256 * FromBE(s[..|s| - 1]) + s[|s| - 1]
  }

  function FromLE(s: seq<Byte>): nat {
    if s == [] then 0 else s[0] + 256 * FromLE(s[1..])
  }

  function Encode(v: nat, n: nat, bigEndian: bool): (s: seq<Byte>)
    ensures |s| == n
  {
    if bigEndian then ToBE(v, n) else ToLE(v, n)
  }

  function Decode(s: seq<Byte>, bigEndian: bool): nat {
    if bigEndian then FromBE(s) else FromLE(s)
  }

  // ---------------------------------------------------------------- inverses

  lemma SplitMod(v: nat, p: nat)
    requires 0 < p
    ensures v % (256 * p) == 256 * ((v / 256) % p) + v % 256
  {
    var y := v / 256;
    DivMod(y, p);
    assert (y / p) * (256 * p) == 256 * ((y / p) * p);
    ModUnique(v, 256 * p, y / p, 256 * (y % p) + v % 256);
  }

  /** Decoding what was encoded gives the value back, modulo 256^n, in either byte order. */
  lemma {:induction false} DecodeEncode(v: nat, n: nat, bigEndian: bool)
    ensures Decode(Encode(v, n, bigEndian), bigEndian) == v % Pow256(n)
    decreases n
  {
    if n > 0 {
      DecodeEncode(v / 256, n - 1, bigEndian);
      SplitMod(v, Pow256(n - 1));
      var s := Encode(v, n, bigEndian);
      if bigEndian {
        assert s[..n - 1] == ToBE(v / 256, n - 1);
      } else {
        assert s[1..] == ToLE(v / 256, n - 1);
      }
    }
  }

  /** Encoding what was decoded gives the bytes back: no two byte strings of one length decode
      alike. */
  lemma {:induction false} EncodeDecode(s: seq<Byte>, bigEndian: bool)
    ensures Encode(Decode(s, bigEndian), |s|, bigEndian) == s
    ensures Decode(s, bigEndian) < Pow256(|s|)
    decreases |s|
  {
    if s != [] {
      var n := |s|;
      if bigEndian {
        EncodeDecode(s[..n - 1], true);
        assert s == s[..n - 1] + [s[n - 1]];
      } else {
        EncodeDecode(s[1..], false);
        assert s == [s[0]] + s[1..];
      }
    }
  }

  /** A value that fits n bytes survives exactly. */
  lemma FitsExactly(v: nat, n: nat, bigEndian: bool)
    requires v < Pow256(n)
    ensures Decode(Encode(v, n, bigEndian), bigEndian) == v
  {
    DecodeEncode(v, n, bigEndian);
    ModUnique(v, Pow256(n), 0, v);
  }

  /** The encodings of the widths in use, byte by byte. */
  lemma EncodedBytes(v: nat)
    ensures ToBE(v, 1) == [v % 256] && ToBE(v, 3) == [v / 65536 % 256, v / 256 % 256, v % 256]
    ensures ToBE(v, 4) == [v / 0x100_0000 % 256, v / 65536 % 256, v / 256 % 256, v % 256]
    ensures ToLE(v, 2) == [v % 256, v / 256 % 256]
    ensures ToLE(v, 4) == [v % 256, v / 256 % 256, v / 65536 % 256, v / 0x100_0000 % 256]
  {
    Quotients(v);
    EncodedBE(v);
    EncodedLE(v);
  }

  lemma Quotients(v: nat)
    ensures v / 256 / 256 == v / 65536 && v / 256 / 256 / 256 == v / 0x100_0000
  {
  }

  lemma EncodedBE(v: nat)
    ensures ToBE(v, 1) == [v % 256] && ToBE(v, 3) == [v / 256 / 256 % 256, v / 256 % 256, v % 256]
    ensures ToBE(v, 4) == [v / 256 / 256 / 256 % 256, v / 256 / 256 % 256, v / 256 % 256, v % 256]
  {
    hide ToBE;
    BEStep(v, 0);
    BEStep(v / 256, 0);
    EncodedThree(v);
    EncodedFour(v, v / 256);
  }

  lemma EncodedFour(v: nat, w: nat)
    requires w == v / 256
    ensures ToBE(v, 4) == [w / 256 / 256 % 256, w / 256 % 256, w % 256, v % 256]
  {
    hide ToBE;
    EncodedThree(w);
    BEStep(v, 3);
  }

  lemma EncodedThree(v: nat)
    ensures ToBE(v, 3) == [v / 256 / 256 % 256, v / 256 % 256, v % 256]
  {
    hide ToBE;
    BEStep(v, 2);
    BEStep(v / 256, 1);
    BEStep(v / 256 / 256, 0);
    BEStep(v / 256 / 256 / 256, 0);
    assert ToBE(v / 256, 2) == [v / 256 / 256 % 256, v / 256 % 256];
  }

  lemma BEStep(v: nat, n: nat)
    ensures ToBE(v, n + 1) == ToBE(v / 256, n) + [v % 256] && ToBE(v, 0) == []
  {
  }

  lemma EncodedLE(v: nat)
    ensures ToLE(v, 2) == [v % 256, v / 256 % 256]
    ensures ToLE(v, 4) == [v % 256, v / 256 % 256, v / 256 / 256 % 256, v / 256 / 256 / 256 % 256]
  {
    hide ToLE;
    var a, b, c := v / 256, v / 256 / 256, v / 256 / 256 / 256;
    LEStep(c, 0);
    LEStep(b, 1);
    LEStep(a, 0);
    LEStep(a, 2);
    LEStep(v, 1);
    LEStep(v, 3);
  }

  lemma LEStep(v: nat, n: nat)
    ensures ToLE(v, n + 1) == [v % 256] + ToLE(v / 256, n) && ToLE(v, 0) == []
  {
  }

  lemma Pow256Small()
    ensures Pow256(1) == 256 && Pow256(2) == 65536 && Pow256(3) == 0x100_0000 && Pow256(4) == U32
  {
  }

  // ---------------------------------------------------------------- the loops

  lemma ShrAdd(x: nat, s: nat, t: nat)
    ensures Shr(x, s + t) == Shr(Shr(x, s), t)
    decreases s
  {
    if s > 0 { ShrAdd(x / 2, s - 1, t); }
  }

  lemma ShrByte(x: nat)
    ensures Shr(x, 8) == x / 256
  {
    ShrNibble(x);
    ShrNibble(x / 16);
    ShrAdd(x, 4, 4);
  }

  lemma ShrNibble(x: nat)
    ensures Shr(x, 4) == x / 16
  {
    var a := x / 2;
    var b := a / 2;
    var c := b / 2;
    assert Shr(c, 1) == c / 2;
    assert Shr(b, 2) == Shr(c, 1);
    assert Shr(a, 3) == Shr(b, 2);
  }

  lemma {:induction false} BytesOf(v: nat, n: nat, i: nat)
    requires i < n
    ensures ToBE(v, n)[i] == Shr(v, 8 * (n - i - 1)) % 256
    ensures ToLE(v, n)[i] == Shr(v, 8 * i) % 256
    decreases n
  {
    ShrByte(v);
    if i < n - 1 {
      BytesOf(v / 256, n - 1, i);
      ShrAdd(v, 8, 8 * (n - i - 2));
    }
    if i > 0 {
      BytesOf(v / 256, n - 1, i - 1);
      ShrAdd(v, 8, 8 * (i - 1));
    }
  }

  /** `before` with the bytes from offset `at` on replaced. */
  function Overlay(bytes: seq<Byte>, at: nat, before: seq<Byte>): (after: seq<Byte>)
    requires at + |bytes| <= |before|
    ensures |after| == |before|
  {
    before[..at] + bytes + before[at + |bytes|..]
  }

  lemma OverlayJoin(a: seq<Byte>, b: seq<Byte>, at: nat, before: seq<Byte>)
    requires at + |a| + |b| <= |before|
    ensures Overlay(b, at + |a|, Overlay(a, at, before)) == Overlay(a + b, at, before)
  {
  }

  /** Writes `value` into buffer[lo..hi]. */
  method UintAsBytes(value: nat, buffer: array<Byte>, lo: nat, hi: nat, bigEndian: bool)
    requires lo <= hi <= buffer.Length
    modifies buffer
    ensures buffer[..] == Overlay(Encode(value, hi - lo, bigEndian), lo, old(buffer[..]))
  {
    var n := hi - lo;
    var val := value;
    ghost var bytes := Encode(value, n, bigEndian);
    for i := 0 to n
      invariant val == if bigEndian then value else Shr(value, 8 * i)
      invariant forall k :: 0 <= k < buffer.Length && !(lo <= k < lo + i) ==> buffer[k] == old(buffer[k])
      invariant forall k :: lo <= k < lo + i ==> buffer[k] == bytes[k - lo]
    {
      BytesOf(value, n, i);
      if bigEndian {
        var v := Shr(val, 8 * (n - i - 1));
        buffer[lo + i] := v % 256;
      } else {
        buffer[lo + i] := val % 256;
        ShrAdd(value, 8 * i, 8);
        val := Shr(val, 8);
      }
    }
    Spliced(buffer[..], old(buffer[..]), lo, bytes);
  }

  lemma Spliced(now: seq<Byte>, before: seq<Byte>, lo: nat, bytes: seq<Byte>)
    requires |now| == |before| && lo + |bytes| <= |now|
    requires forall k :: 0 <= k < |now| && !(lo <= k < lo + |bytes|) ==> now[k] == before[k]
    requires forall k :: lo <= k < lo + |bytes| ==> now[k] == bytes[k - lo]
    ensures now == Overlay(bytes, lo, before)
  {
  }

  method CopyInto(buf: array<Byte>, at: nat, bytes: seq<Byte>)
    requires at + |bytes| <= buf.Length
    modifies buf
    ensures buf[..] == Overlay(bytes, at, old(buf[..]))
  {
    forall i | 0 <= i < |bytes| {
      buf[at + i] := bytes[i];
    }
  }

  lemma {:induction false} FromLESnoc(s: seq<Byte>, b: Byte)
    ensures FromLE(s + [b]) == FromLE(s) + b * Pow256(|s|)
    decreases |s|
  {
    if s == [] {
      assert ([] + [b])[1..] == [];
    } else {
      assert (s + [b])[1..] == s[1..] + [b];
      FromLESnoc(s[1..], b);
      assert b * Pow256(|s|) == 256 * (b * Pow256(|s| - 1));
    }
  }

  lemma AddMod(a: nat, b: nat)
    ensures (a % U32 + b % U32) % U32 == (a + b) % U32
  {
    var q := (a % U32 + b % U32) / U32;
    var r := (a % U32 + b % U32) % U32;
    ModUnique(a + b, U32, a / U32 + b / U32 + q, r);
  }

  lemma ShiftMod(a: nat, b: nat)
    ensures (256 * (a % U32) + b) % U32 == (256 * a + b) % U32
  {
    var x := 256 * (a % U32) + b;
    ModUnique(256 * a + b, U32, 256 * (a / U32) + x / U32, x % U32);
  }

  /** The value of a byte string in uint32 arithmetic: longer strings wrap around. */
  method BytesAsUint32(buffer: seq<Byte>, bigEndian: bool) returns (ret: nat)
    ensures ret == Decode(buffer, bigEndian) % U32
    ensures |buffer| <= 4 ==> ret == Decode(buffer, bigEndian)
  {
    ret := 0;
    assert buffer[..0] == [];
    for i := 0 to |buffer|
      invariant ret == Decode(buffer[..i], bigEndian) % U32
    {
      var head := buffer[..i];
      assert buffer[..i + 1] == head + [buffer[i]];
      if bigEndian {
        assert (head + [buffer[i]])[..i] == head;
        ShiftMod(FromBE(head), buffer[i]);
        ret := (256 * ret + buffer[i]) % U32;
      } else {
        FromLESnoc(head, buffer[i]);
        AddMod(FromLE(head), buffer[i] * Pow256(i));
        ret := (ret + (buffer[i] * Pow256(i)) % U32) % U32;
      }
    }
    assert buffer[..|buffer|] == buffer;
    if |buffer| <= 4 { FourBytesFit(buffer, bigEndian); }
  }

  lemma FourBytesFit(buffer: seq<Byte>, bigEndian: bool)
    requires |buffer| <= 4
    ensures Decode(buffer, bigEndian) % U32 == Decode(buffer, bigEndian)
  {
    EncodeDecode(buffer, bigEndian);
    Pow256Small();
    Pow256Grows(|buffer|, 4);
  }

  lemma Pow256Grows(m: nat, n: nat)
    requires m <= n
    ensures Pow256(m) <= Pow256(n)
  {
    if m < n { Pow256Grows(m, n - 1); }
  }
}
