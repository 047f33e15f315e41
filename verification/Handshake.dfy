/** The server's handshake: where the complex handshake puts its digests
    (pkg/rtmp/handshake/handshake_server.go). HMAC-SHA256 is any function with 32-byte results,
    and the random fill is a parameter. */
module Handshake {
  import opened Bytes

  type Hmac = (seq<Byte>, seq<Byte>) -> seq<Byte>

  const SIZE: nat := 1536
  const DIGEST: nat := 32
  const RANGE: nat := 728
  /** The two places of the four bytes that say where the digest is. */
  const LOW: nat := 8
  const HIGH: nat := 772
  const SERVER_VERSION: nat := 0x0d0e0a0d

  ghost predicate Sized(hmac: Hmac) { forall key, src :: |hmac(key, src)| == DIGEST }

  function DigestPos(p: seq<Byte>, base: nat): nat
    requires base + 4 <= |p|
  {
    (p[base] as int + p[base + 1] as int + p[base + 2] as int + p[base + 3] as int) % RANGE + base + 4
  }

  method CalcDigestPos(p: seq<Byte>, base: nat) returns (pos: nat)
    requires base + 4 <= |p|
    ensures pos == DigestPos(p, base)
  {
    pos := 0;
    for i := 0 to 4
      invariant i == 0 ==> pos == 0
      invariant i == 1 ==> pos == p[base]
      invariant i == 2 ==> pos == p[base] as int + p[base + 1] as int
      invariant i == 3 ==> pos == p[base] as int + p[base + 1] as int + p[base + 2] as int
      invariant i == 4 ==> pos == p[base] as int + p[base + 1] as int + p[base + 2] as int + p[base + 3] as int
    {
      pos := pos + p[base + i];
    }
    pos := pos % RANGE + base + 4;
  }

  /** The digest of everything but the 32 bytes at `gap`, or of everything if gap <= 0. */
  function MakeDigest(hmac: Hmac, key: seq<Byte>, src: seq<Byte>, gap: int): seq<Byte>
    requires 0 < gap ==> gap + DIGEST <= |src|
  {
    if gap <= 0 then hmac(key, src) else hmac(key, src[..gap] + src[gap + DIGEST..])
  }

  /** The two digest windows lie inside the message, after their own position bytes, and the
      lower one ends before the position bytes of the upper one. */
  lemma WindowInside(p: seq<Byte>, base: nat)
    requires |p| == SIZE && (base == LOW || base == HIGH)
    ensures base + 4 <= DigestPos(p, base)
    ensures DigestPos(p, base) + DIGEST < if base == LOW then HIGH else SIZE
  {
  }

  function FindDigest(hmac: Hmac, p: seq<Byte>, key: seq<Byte>, base: nat): int
    requires |p| == SIZE && (base == LOW || base == HIGH)
  {
    WindowInside(p, base);
    var gap := DigestPos(p, base);
    if p[gap..gap + DIGEST] == MakeDigest(hmac, key, p, gap) then gap else -1
  }

  datatype Parsed = Invalid | Valid(digest: seq<Byte>)

  function ParseC1(hmac: Hmac, p: seq<Byte>, peerKey: seq<Byte>, key: seq<Byte>): Parsed
    requires |p| == SIZE
  {
    WindowInside(p, HIGH);
    WindowInside(p, LOW);
    var high := FindDigest(hmac, p, peerKey, HIGH);
    var pos := if high == -1 then FindDigest(hmac, p, peerKey, LOW) else high;
    if pos == -1 then Invalid else Valid(MakeDigest(hmac, key, p[pos..pos + DIGEST], -1))
  }

  /** A message carries a digest at a base when the four bytes there lead to 32 bytes that
      authenticate all the others. The numbers are those of the handshake, not of the code. */
  predicate Carries(hmac: Hmac, p: seq<Byte>, key: seq<Byte>, base: nat)
    requires |p| == 1536 && (base == 8 || base == 772)
  {
    var gap := (p[base] as int + p[base + 1] as int + p[base + 2] as int + p[base + 3] as int) % 728 + base + 4;
    p[gap..gap + 32] == hmac(key, p[..gap] + p[gap + 32..])
  }

  /** Each of the four bytes counts: zeros lead to the window's first place, and raising any of
      them by one leads to the next place, from the last of the 728 back to the first. */
  lemma PositionSteps(p: seq<Byte>, base: nat, i: nat)
    requires base + 4 <= |p| && i < 4
    ensures p[base..base + 4] == [0, 0, 0, 0] ==> DigestPos(p, base) == base + 4
    ensures p[base + i] < 255 ==>
              DigestPos(p[base + i := p[base + i] + 1], base)
              == if DigestPos(p, base) == base + 4 + 727 then base + 4 else DigestPos(p, base) + 1
  {
    if p[base..base + 4] == [0, 0, 0, 0] {
      var z := p[base..base + 4];
      assert z[0] == p[base] && z[1] == p[base + 1] && z[2] == p[base + 2] && z[3] == p[base + 3];
    }
    if p[base + i] < 255 {
      var q := p[base + i := p[base + i] + 1];
      var n := p[base] as int + p[base + 1] as int + p[base + 2] as int + p[base + 3] as int;
      assert q[base] as int + q[base + 1] as int + q[base + 2] as int + q[base + 3] as int == n + 1;
    }
  }

  lemma FoundIffCarried(hmac: Hmac, p: seq<Byte>, key: seq<Byte>, base: nat)
    requires |p| == SIZE && (base == LOW || base == HIGH)
    ensures FindDigest(hmac, p, key, base) == if Carries(hmac, p, key, base) then Gap(p, base) else -1
  {
  }

  /** A message is accepted exactly when it carries a digest at one of the two places. */
  lemma AcceptedIffCarries(hmac: Hmac, p: seq<Byte>, peerKey: seq<Byte>, key: seq<Byte>)
    requires |p| == SIZE
    ensures ParseC1(hmac, p, peerKey, key).Valid? <==> Carries(hmac, p, peerKey, 772) || Carries(hmac, p, peerKey, 8)
  {
    hide FindDigest, Carries;
    FoundIffCarried(hmac, p, peerKey, HIGH);
    FoundIffCarried(hmac, p, peerKey, LOW);
  }

  /** Writing 32 bytes into the window moves neither the window nor the bytes that are hashed. */
  lemma EmbeddingStable(hmac: Hmac, key: seq<Byte>, p: seq<Byte>, base: nat, d: seq<Byte>)
    requires |p| == SIZE && (base == LOW || base == HIGH) && |d| == DIGEST
    ensures var gap := DigestPos(p, base);
            && gap + DIGEST <= SIZE
            && DigestPos(Overlay(d, gap, p), base) == gap
            && MakeDigest(hmac, key, Overlay(d, gap, p), gap) == MakeDigest(hmac, key, p, gap)
            && Overlay(d, gap, p)[gap..gap + DIGEST] == d
  {
    WindowInside(p, base);
    var gap := DigestPos(p, base);
    var q := Overlay(d, gap, p);
    assert q[base] == p[base] && q[base + 1] == p[base + 1] && q[base + 2] == p[base + 2] && q[base + 3] == p[base + 3];
    assert q[..gap] == p[..gap] && q[gap + DIGEST..] == p[gap + DIGEST..];
  }

  /** `p` with its own digest embedded. */
  function Signed(hmac: Hmac, key: seq<Byte>, p: seq<Byte>, base: nat): (q: seq<Byte>)
    requires |p| == SIZE && (base == LOW || base == HIGH) && |MakeDigest(hmac, key, p, Gap(p, base))| == DIGEST
    ensures |q| == SIZE
  {
    Overlay(MakeDigest(hmac, key, p, Gap(p, base)), Gap(p, base), p)
  }

  /** The digest's position, known to be inside. */
  function Gap(p: seq<Byte>, base: nat): (gap: nat)
    requires |p| == SIZE && (base == LOW || base == HIGH)
    ensures base + 4 <= gap && gap + DIGEST <= SIZE
  {
    WindowInside(p, base);
    DigestPos(p, base)
  }

  lemma SignedCarries(hmac: Hmac, key: seq<Byte>, p: seq<Byte>, base: nat)
    requires Sized(hmac) && |p| == SIZE && (base == LOW || base == HIGH)
    ensures var q := Signed(hmac, key, p, base);
            && Carries(hmac, q, key, base) && Gap(q, base) == Gap(p, base)
            && q[Gap(p, base)..Gap(p, base) + DIGEST] == MakeDigest(hmac, key, p, Gap(p, base))
  {
    EmbeddingStable(hmac, key, p, base, MakeDigest(hmac, key, p, Gap(p, base)));
  }

  /** A signed message is accepted under its key; and unless the upper window happens to hold a
      digest too, the digest found is the one that was embedded. */
  lemma SignedAccepted(hmac: Hmac, key: seq<Byte>, ownKey: seq<Byte>, p: seq<Byte>, base: nat)
    requires Sized(hmac) && |p| == SIZE && (base == LOW || base == HIGH)
    ensures var q := Signed(hmac, key, p, base);
            && Carries(hmac, q, key, base) && ParseC1(hmac, q, key, ownKey).Valid?
            && (base == HIGH || !Carries(hmac, q, key, HIGH) ==>
                  ParseC1(hmac, q, key, ownKey) == Valid(hmac(ownKey, MakeDigest(hmac, key, p, Gap(p, base)))))
  {
    hide Carries, Signed, FindDigest, DigestPos;
    SignedCarries(hmac, key, p, base);
    var q := Signed(hmac, key, p, base);
    FoundIffCarried(hmac, q, key, HIGH);
    FoundIffCarried(hmac, q, key, LOW);
  }

  // ---------------------------------------------------------------- building the answers

  /** S1 before its digest. */
  function Unsigned(time: nat, version: nat, fill: seq<Byte>): (s: seq<Byte>)
    requires |fill| == SIZE - 8
    ensures |s| == SIZE
  {
    ToBE(time, 4) + ToBE(version, 4) + fill
  }

  function BuiltS1(hmac: Hmac, time: nat, version: nat, key: seq<Byte>, fill: seq<Byte>): (s: seq<Byte>)
    requires |fill| == SIZE - 8
    requires |MakeDigest(hmac, key, Unsigned(time, version, fill), Gap(Unsigned(time, version, fill), LOW))| == DIGEST
    ensures |s| == SIZE
  {
    Signed(hmac, key, Unsigned(time, version, fill), LOW)
  }

  lemma OverlayTail(bytes: seq<Byte>, at: nat, before: seq<Byte>)
    requires 1 + at + |bytes| <= |before|
    ensures Overlay(bytes, 1 + at, before)[0] == before[0]
    ensures Overlay(bytes, 1 + at, before)[1..] == Overlay(bytes, at, before[1..])
  {
  }

  lemma ThreeFields(time: nat, version: nat, fill: seq<Byte>, before: seq<Byte>)
    requires |fill| == SIZE - 8 && |before| == SIZE
    ensures Overlay(ToBE(version, 4), 4, Overlay(ToBE(time, 4), 0, Overlay(fill, 8, before)))
         == Unsigned(time, version, fill)
  {
  }

  /** p holds S0 and then S1; S0 is left alone. */
  method CreateS0S1(hmac: Hmac, p: array<Byte>, time: nat, version: nat, key: seq<Byte>, fill: seq<Byte>)
    requires Sized(hmac) && p.Length == 1 + SIZE && |fill| == SIZE - 8
    modifies p
    ensures p[0] == old(p[0]) && p[1..] == BuiltS1(hmac, time, version, key, fill)
  {
    hide Overlay, Unsigned, DigestPos;
    OverlayTail(fill, 8, p[..]);
    CopyInto(p, 9, fill);
    OverlayTail(ToBE(time, 4), 0, p[..]);
    UintAsBytes(time, p, 1, 5, true);
    OverlayTail(ToBE(version, 4), 4, p[..]);
    UintAsBytes(version, p, 5, 9, true);
    ThreeFields(time, version, fill, old(p[1..]));
    Sign(hmac, p, key);
  }

  /** Embeds the digest of p[1..]. */
  method Sign(hmac: Hmac, p: array<Byte>, key: seq<Byte>)
    requires Sized(hmac) && p.Length == 1 + SIZE
    modifies p
    ensures p[0] == old(p[0]) && p[1..] == Signed(hmac, key, old(p[1..]), LOW)
  {
    hide Overlay;
    var p1 := p[1..];
    var gap := CalcDigestPos(p1, LOW);
    WindowInside(p1, LOW);
    var digest := MakeDigest(hmac, key, p1, gap);
    OverlayTail(digest, gap, p[..]);
    CopyInto(p, 1 + gap, digest);
  }

  method CreateS2(hmac: Hmac, p: array<Byte>, key: seq<Byte>, fill: seq<Byte>)
    requires Sized(hmac) && p.Length == SIZE && |fill| == SIZE
    modifies p
    ensures p[..] == fill[..SIZE - DIGEST] + hmac(key, fill[..SIZE - DIGEST])
  {
    CopyInto(p, 0, fill);
    assert p[..] == fill;
    var gap := p.Length - DIGEST;
    var digest := MakeDigest(hmac, key, p[..], gap);
    assert fill[..gap] + fill[gap + DIGEST..] == fill[..gap];
    CopyInto(p, gap, digest);
  }

  // ---------------------------------------------------------------- the whole handshake

  datatype Keys = Keys(clientPartial: seq<Byte>, serverFull: seq<Byte>, serverPartial: seq<Byte>)

  datatype Outcome = ShortC0C1 | BadVersion(version: Byte) | BadC1 | ShortC2(sent: seq<Byte>) | Done(sent: seq<Byte>)

  function Field(s: seq<Byte>, at: nat): nat
    requires at + 4 <= |s|
  {
    FromBE(s[at..at + 4])
  }

  /** S1 and S2 for an acceptable C1: the complex answer to a client that names its version, the
      simple one to a client that does not. The simple S1 is all zeros, for it is copied from a
      C2 that has not arrived yet. */
  ghost function Answer(hmac: Hmac, keys: Keys, c1: seq<Byte>, fill1: seq<Byte>, fill2: seq<Byte>): (s: seq<Byte>)
    requires Sized(hmac) && |c1| == SIZE && |fill1| == SIZE - 8 && |fill2| == SIZE
  {
    if Field(c1, 4) == 0 then seq(SIZE, _ => 0) + c1
    else
      var parsed := ParseC1(hmac, c1, keys.clientPartial, keys.serverFull);
      BuiltS1(hmac, Field(c1, 0), SERVER_VERSION, keys.serverPartial, fill1)
      + if parsed.Valid? then fill2[..SIZE - DIGEST] + hmac(parsed.digest, fill2[..SIZE - DIGEST]) else []
  }

  predicate AcceptableC1(hmac: Hmac, keys: Keys, c1: seq<Byte>)
    requires |c1| == SIZE
  {
    Field(c1, 4) == 0 || Carries(hmac, c1, keys.clientPartial, 772) || Carries(hmac, c1, keys.clientPartial, 8)
  }

  method ServerHandshake(hmac: Hmac, keys: Keys, input: seq<Byte>, fill1: seq<Byte>, fill2: seq<Byte>) returns (r: Outcome)
    requires Sized(hmac) && |fill1| == SIZE - 8 && |fill2| == SIZE
    ensures if |input| < 1 + SIZE then r == ShortC0C1
            else if input[0] != 3 then r == BadVersion(input[0])
            else
              var c1 := input[1..1 + SIZE];
              if !AcceptableC1(hmac, keys, c1) then r == BadC1
              else
                var answer := [3 as Byte] + Answer(hmac, keys, c1, fill1, fill2);
                r == if |input| < 1 + 2 * SIZE then ShortC2(answer) else Done(answer)
  {
    if |input| < 1 + SIZE {
      return ShortC0C1;
    }
    if input[0] != 3 {
      return BadVersion(input[0]);
    }
    var c1 := input[1..1 + SIZE];
    var ok, answer := Respond(hmac, keys, c1, fill1, fill2);
    if !ok {
      return BadC1;
    }
    return if |input| < 1 + 2 * SIZE then ShortC2([3] + answer) else Done([3] + answer);
  }

  /** S1 and S2, in their buffers; the byte before S1 is S0. */
  method Respond(hmac: Hmac, keys: Keys, c1: seq<Byte>, fill1: seq<Byte>, fill2: seq<Byte>)
    returns (ok: bool, answer: seq<Byte>)
    requires Sized(hmac) && |c1| == SIZE && |fill1| == SIZE - 8 && |fill2| == SIZE
    ensures ok <==> AcceptableC1(hmac, keys, c1)
    ensures ok ==> answer == Answer(hmac, keys, c1, fill1, fill2)
  {
    hide BuiltS1, ParseC1, Carries, Overlay;
    AcceptedIffCarries(hmac, c1, keys.clientPartial, keys.serverFull);
    var s0s1 := new Byte[1 + SIZE](_ => 0);
    var s2 := new Byte[SIZE](_ => 0);
    var cliTime := BytesAsUint32(c1[0..4], true);
    var cliVer := BytesAsUint32(c1[4..8], true);
    if cliVer != 0 {
      var parsed := ParseC1(hmac, c1, keys.clientPartial, keys.serverFull);
      if parsed.Invalid? {
        return false, [];
      }
      CreateS0S1(hmac, s0s1, cliTime, SERVER_VERSION, keys.serverPartial, fill1);
      CreateS2(hmac, s2, parsed.digest, fill2);
    } else {
      assert s0s1[1..] == seq(SIZE, _ => 0);
      OverlayAll(c1, s2[..]);
      CopyInto(s2, 0, c1);
    }
    return true, s0s1[1..] + s2[..];
  }

  lemma OverlayAll(bytes: seq<Byte>, before: seq<Byte>)
    requires |bytes| == |before|
    ensures Overlay(bytes, 0, before) == bytes
  {
  }

  lemma S1Header(hmac: Hmac, time: nat, version: nat, key: seq<Byte>, fill: seq<Byte>)
    requires Sized(hmac) && |fill| == SIZE - 8
    ensures BuiltS1(hmac, time, version, key, fill)[..8] == ToBE(time, 4) + ToBE(version, 4)
  {
    var p := Unsigned(time, version, fill);
    assert p[..8] == ToBE(time, 4) + ToBE(version, 4);
    assert 8 <= Gap(p, LOW);
  }

  /** Client and server agree: whatever the random fills, a C1 that the client signs at either
      place is accepted, the S1 sent back echoes its time and is accepted under the server's
      key, and S2 ends with the digest of its rest under the digest of the client's digest. */
  lemma SignedClientServed(hmac: Hmac, keys: Keys, c: seq<Byte>, base: nat,
                           fill1: seq<Byte>, fill2: seq<Byte>, ownKey: seq<Byte>)
    requires Sized(hmac) && |c| == SIZE && (base == LOW || base == HIGH) && |fill1| == SIZE - 8 && |fill2| == SIZE
    requires var c1 := Signed(hmac, keys.clientPartial, c, base);
             Field(c1, 4) != 0 && (base == HIGH || !Carries(hmac, c1, keys.clientPartial, HIGH))
    ensures var c1 := Signed(hmac, keys.clientPartial, c, base);
            var d := MakeDigest(hmac, keys.clientPartial, c, Gap(c, base));
            var s := Answer(hmac, keys, c1, fill1, fill2);
            && AcceptableC1(hmac, keys, c1) && |s| == 2 * SIZE
            && s[..4] == c1[..4]
            && ParseC1(hmac, s[..SIZE], keys.serverPartial, ownKey).Valid?
            && s[2 * SIZE - DIGEST..] == hmac(hmac(keys.serverFull, d), s[SIZE..2 * SIZE - DIGEST])
  {
    hide FindDigest, DigestPos, Carries, Signed;
    var c1 := Signed(hmac, keys.clientPartial, c, base);
    SignedAccepted(hmac, keys.clientPartial, keys.serverFull, c, base);
    var time := Field(c1, 0);
    var s1 := BuiltS1(hmac, time, SERVER_VERSION, keys.serverPartial, fill1);
    SignedAccepted(hmac, keys.serverPartial, ownKey, Unsigned(time, SERVER_VERSION, fill1), LOW);
    S1Header(hmac, time, SERVER_VERSION, keys.serverPartial, fill1);
    EncodeDecode(c1[0..4], true);
    var s := Answer(hmac, keys, c1, fill1, fill2);
    var s2 := s[SIZE..];
    assert s[..SIZE] == s1;
    assert s[..4] == s1[..8][..4] == ToBE(time, 4);
    assert s2[..SIZE - DIGEST] == fill2[..SIZE - DIGEST] == s[SIZE..2 * SIZE - DIGEST];
  }

  // ---------------------------------------------------------------- the answer, byte by byte

  /** S1 and S2 of an accepted C1, down to the last byte. A client without a version gets 1536
      zeros and its own C1 back. Any other gets an S1 of its own time, the version 13.14.10.13 and
      the fill, in which the digest of the rest under the server's partial key stands where the
      four bytes from 8 on lead; and an S2 that ends with the digest of its rest, under the digest
      of the client's digest under the server's full key. The client's digest is looked for at
      772 before 8. */
  lemma AnswerExactly(hmac: Hmac, keys: Keys, c1: seq<Byte>, fill1: seq<Byte>, fill2: seq<Byte>)
    requires Sized(hmac) && |c1| == 1536 && |fill1| == 1528 && |fill2| == 1536 && AcceptableC1(hmac, keys, c1)
    ensures var s := Answer(hmac, keys, c1, fill1, fill2);
            if c1[4..8] == [0, 0, 0, 0] then s == seq(1536, _ => 0) + c1
            else
              var base := if Carries(hmac, c1, keys.clientPartial, 772) then 772 else 8;
              var sum := c1[base] as int + c1[base + 1] as int + c1[base + 2] as int + c1[base + 3] as int;
              var at := sum % 728 + base + 4;
              var u := c1[..4] + [13, 14, 10, 13] + fill1;
              var g := (u[8] as int + u[9] as int + u[10] as int + u[11] as int) % 728 + 12;
              && Carries(hmac, c1, keys.clientPartial, base)
              && s == u[..g] + hmac(keys.serverPartial, u[..g] + u[g + 32..]) + u[g + 32..]
                      + fill2[..1504] + hmac(hmac(keys.serverFull, c1[at..at + 32]), fill2[..1504])
  {
    VersionZero(c1);
    if c1[4..8] != [0, 0, 0, 0] {
      hide Answer, ParseC1, BuiltS1, Carries, Field;
      ParsedExactly(hmac, keys, c1);
      AnswerParts(hmac, keys, c1, fill1, fill2);
      S1Exactly(hmac, c1, keys.serverPartial, fill1);
    }
  }

  lemma AnswerParts(hmac: Hmac, keys: Keys, c1: seq<Byte>, fill1: seq<Byte>, fill2: seq<Byte>)
    requires Sized(hmac) && |c1| == 1536 && |fill1| == 1528 && |fill2| == 1536 && Field(c1, 4) != 0
    requires ParseC1(hmac, c1, keys.clientPartial, keys.serverFull).Valid?
    ensures var d := ParseC1(hmac, c1, keys.clientPartial, keys.serverFull).digest;
            Answer(hmac, keys, c1, fill1, fill2)
            == BuiltS1(hmac, Field(c1, 0), 0x0d0e0a0d, keys.serverPartial, fill1)
               + fill2[..1504] + hmac(d, fill2[..1504])
  {
  }

  lemma VersionZero(c1: seq<Byte>)
    requires 8 <= |c1|
    ensures Field(c1, 4) == 0 <==> c1[4..8] == [0, 0, 0, 0]
  {
    EncodeDecode(c1[4..8], true);
    Pow256Small();
    FitsExactly(0, 4, true);
    assert ToBE(0, 4) == [0, 0, 0, 0] by { ZeroBytes(); }
  }

  lemma ZeroBytes()
    ensures ToBE(0, 4) == [0, 0, 0, 0]
  {
    assert ToBE(0, 1) == [0];
    assert ToBE(0, 2) == [0, 0];
    assert ToBE(0, 3) == [0, 0, 0];
  }

  lemma VersionBytes()
    ensures ToBE(0x0d0e0a0d, 4) == [13, 14, 10, 13]
  {
    assert ToBE(0x0d, 1) == [13];
    assert ToBE(0x0d0e, 2) == [13, 14];
    assert ToBE(0x0d0e0a, 3) == [13, 14, 10];
  }

  lemma ParsedExactly(hmac: Hmac, keys: Keys, c1: seq<Byte>)
    requires |c1| == 1536
    requires Carries(hmac, c1, keys.clientPartial, 772) || Carries(hmac, c1, keys.clientPartial, 8)
    ensures var base := if Carries(hmac, c1, keys.clientPartial, 772) then 772 else 8;
            var sum := c1[base] as int + c1[base + 1] as int + c1[base + 2] as int + c1[base + 3] as int;
            var at := sum % 728 + base + 4;
            ParseC1(hmac, c1, keys.clientPartial, keys.serverFull) == Valid(hmac(keys.serverFull, c1[at..at + 32]))
  {
    hide Carries;
    FoundIffCarried(hmac, c1, keys.clientPartial, 772);
    FoundIffCarried(hmac, c1, keys.clientPartial, 8);
  }

  lemma S1Exactly(hmac: Hmac, c1: seq<Byte>, key: seq<Byte>, fill: seq<Byte>)
    requires Sized(hmac) && |c1| == 1536 && |fill| == 1528
    ensures var u := c1[..4] + [13, 14, 10, 13] + fill;
            var g := (u[8] as int + u[9] as int + u[10] as int + u[11] as int) % 728 + 12;
            BuiltS1(hmac, Field(c1, 0), 0x0d0e0a0d, key, fill) == u[..g] + hmac(key, u[..g] + u[g + 32..]) + u[g + 32..]
  {
    EncodeDecode(c1[0..4], true);
    VersionBytes();
    var u := c1[..4] + [13, 14, 10, 13] + fill;
    assert Unsigned(Field(c1, 0), 0x0d0e0a0d, fill) == u;
    var g := (u[8] as int + u[9] as int + u[10] as int + u[11] as int) % 728 + 12;
    assert Gap(u, 8) == g;
    var d := hmac(key, u[..g] + u[g + 32..]);
    assert Overlay(d, g, u) == u[..g] + d + u[g + 32..];
  }
}
