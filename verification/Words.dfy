/** 64-bit words as natural numbers: the bit operations of research/queue/ring.go, the
    rounding of a ring's size to a power of two, and the slot a ticket falls into. */
module Words {

  /** One more than the largest uint64. */
  const WORD: nat := 0x1_0000_0000_0000_0000

  function Pow2(k: nat): (r: nat)
    ensures 1 <= r
  {
    if k == 0 then 1 else 2 * Pow2(k - 1)
  }

  ghost predicate IsPow2(n: nat) {
    exists k: nat :: Pow2(k) == n
  }

  function Bit(x: nat, i: nat): (b: nat)
    ensures b <= 1
  {
    if i == 0 then x % 2 else Bit(x / 2, i - 1)
  }

  function Shr(x: nat, s: nat): nat {
    if s == 0 then x else Shr(x / 2, s - 1)
  }

  function Or(a: nat, b: nat): nat
    decreases a + b
  {
    if a == 0 && b == 0 then 0
    else 2 * Or(a / 2, b / 2) + (if a % 2 == 1 || b % 2 == 1 then 1 else 0)
  }

  function And(a: nat, b: nat): nat
    decreases a
  {
    if a == 0 || b == 0 then 0
    else 2 * And(a / 2, b / 2) + (if a % 2 == 1 && b % 2 == 1 then 1 else 0)
  }

  lemma {:induction false} Pow2Monotone(j: nat, k: nat)
    requires j < k
    ensures 2 * Pow2(j) <= Pow2(k)
  {
    if j + 1 < k {
      Pow2Monotone(j, k - 1);
    }
  }

  lemma Pow2Of64()
    ensures Pow2(63) == 0x8000_0000_0000_0000 && Pow2(64) == WORD
  {
    assert Pow2(8) == 256;
    assert Pow2(16) == 0x1_0000;
    assert Pow2(24) == 0x100_0000;
    assert Pow2(32) == 0x1_0000_0000;
    assert Pow2(40) == 0x100_0000_0000;
    assert Pow2(48) == 0x1_0000_0000_0000;
    assert Pow2(56) == 0x100_0000_0000_0000;
  }

  lemma {:induction false} BitOfOr(a: nat, b: nat, i: nat)
    ensures Bit(Or(a, b), i) == if Bit(a, i) == 1 || Bit(b, i) == 1 then 1 else 0
    decreases i
  {
    if i == 0 {
      assert Or(a, b) % 2 == if a % 2 == 1 || b % 2 == 1 then 1 else 0;
    } else {
      assert Or(a, b) / 2 == Or(a / 2, b / 2);
      BitOfOr(a / 2, b / 2, i - 1);
    }
  }

  lemma {:induction false} BitOfShr(x: nat, s: nat, i: nat)
    ensures Bit(Shr(x, s), i) == Bit(x, i + s)
    decreases s
  {
    if s > 0 {
      BitOfShr(x / 2, s - 1, i);
    }
  }

  lemma {:induction false} OrBelow(a: nat, b: nat, n: nat)
    requires a < Pow2(n) && b < Pow2(n)
    ensures Or(a, b) < Pow2(n)
    decreases n
  {
    if n > 0 {
      OrBelow(a / 2, b / 2, n - 1);
    }
  }

  lemma {:induction false} ShrBelow(x: nat, s: nat)
    ensures Shr(x, s) <= x
    decreases s
  {
    if s > 0 {
      ShrBelow(x / 2, s - 1);
    }
  }

  lemma {:induction false} AllOnes(x: nat, n: nat)
    requires x < Pow2(n)
    requires forall i: nat :: i < n ==> Bit(x, i) == 1
    ensures x == Pow2(n) - 1
  {
    if n > 0 {
      forall i: nat | i < n - 1 ensures Bit(x / 2, i) == 1 {
        assert Bit(x, i + 1) == 1;
      }
      AllOnes(x / 2, n - 1);
      assert Bit(x, 0) == 1;
    }
  }

  /** x has n significant bits, and the leading t of them are set. */
  ghost predicate LeadingOnes(x: nat, n: nat, t: nat) {
    x < Pow2(n) && forall i: nat :: i < n <= i + t ==> Bit(x, i) == 1
  }

  lemma {:induction false} TopBit(x: nat) returns (n: nat)
    requires 0 < x
    ensures 1 <= n && Pow2(n - 1) <= x && LeadingOnes(x, n, 1)
  {
    if x == 1 {
      n := 1;
      assert Bit(1, 0) == 1;
    } else {
      n := TopBit(x / 2);
      assert Bit(x / 2, n - 1) == 1;
      assert Bit(x, n) == 1;
      n := n + 1;
    }
  }

  /** One `v |= v >> t` doubles the run of leading ones. */
  lemma SmearDoubles(x: nat, n: nat, t: nat)
    requires LeadingOnes(x, n, t)
    ensures LeadingOnes(Or(x, Shr(x, t)), n, 2 * t)
  {
    ShrBelow(x, t);
    OrBelow(x, Shr(x, t), n);
    forall i: nat | i < n <= i + 2 * t ensures Bit(Or(x, Shr(x, t)), i) == 1 {
      BitOfOr(x, Shr(x, t), i);
      BitOfShr(x, t, i);
      assert n <= i + t || (i + t < n && n <= (i + t) + t);
    }
  }

  function Smear(x: nat): nat {
    var a := Or(x, Shr(x, 1));
    var b := Or(a, Shr(a, 2));
    var c := Or(b, Shr(b, 4));
    var d := Or(c, Shr(c, 8));
    var e := Or(d, Shr(d, 16));
    Or(e, Shr(e, 32))
  }

  lemma SmearFills(x: nat, n: nat)
    requires LeadingOnes(x, n, 1) && n <= 64
    ensures Smear(x) == Pow2(n) - 1
  {
    var a := Or(x, Shr(x, 1));
    var b := Or(a, Shr(a, 2));
    var c := Or(b, Shr(b, 4));
    var d := Or(c, Shr(c, 8));
    var e := Or(d, Shr(d, 16));
    SmearDoubles(x, n, 1);
    SmearDoubles(a, n, 2);
    SmearDoubles(b, n, 4);
    SmearDoubles(c, n, 8);
    SmearDoubles(d, n, 16);
    SmearDoubles(e, n, 32);
    AllOnes(Smear(x), n);
  }

  /** r is the least power of two that is at least v. */
  ghost predicate LeastPow2AtLeast(v: nat, r: nat) {
    IsPow2(r) && v <= r && forall k: nat :: v <= Pow2(k) ==> r <= Pow2(k)
  }

  lemma LeastPow2Between(v: nat, n: nat)
    requires v <= Pow2(n) && (n > 0 ==> Pow2(n - 1) < v)
    ensures LeastPow2AtLeast(v, Pow2(n))
  {
    forall k: nat | v <= Pow2(k) ensures Pow2(n) <= Pow2(k) {
      if k < n {
        if k < n - 1 { Pow2Monotone(k, n - 1); }
        assert false;
      } else if n < k {
        Pow2Monotone(n, k);
      }
    }
  }

  /** A requested size rounded up to a power of two in uint64 arithmetic. Sizes 0 and above
      2^63 come out as 0, because the last increment or the first decrement wraps around. */
  ghost predicate RoundedUp(size: nat, cap: nat) {
    if 1 <= size <= 0x8000_0000_0000_0000 then LeastPow2AtLeast(size, cap) else cap == 0
  }

  method RoundUp(size: nat) returns (v: nat)
    requires size < WORD
    ensures RoundedUp(size, v)
  {
    v := if size == 0 then WORD - 1 else size - 1;
    RoundedSmear(v);
    v := Or(v, Shr(v, 1));
    v := Or(v, Shr(v, 2));
    v := Or(v, Shr(v, 4));
    v := Or(v, Shr(v, 8));
    v := Or(v, Shr(v, 16));
    v := Or(v, Shr(v, 32));
    v := if v == WORD - 1 then 0 else v + 1;
  }

  /** What the six smearing steps leave, for every word u. */
  lemma RoundedSmear(u: nat)
    requires u < WORD
    ensures u < 0x8000_0000_0000_0000 ==> LeastPow2AtLeast(u + 1, Smear(u) + 1) && Smear(u) + 1 < WORD
    ensures u >= 0x8000_0000_0000_0000 ==> Smear(u) == WORD - 1
  {
    Pow2Of64();
    if u == 0 {
      ShrOfZero();
      LeastPow2Between(1, 0);
    } else {
      var n := TopBit(u);
      if n > 64 { AtLeastPow2(64, n - 1); }
      SmearFills(u, n);
      if n < 64 {
        AtLeastPow2(n, 63);
        LeastPow2Between(u + 1, n);
      }
    }
  }

  lemma ShrOfZero()
    ensures Smear(0) == 0
  {
    ShrBelow(0, 1);
    ShrBelow(0, 2);
    ShrBelow(0, 4);
    ShrBelow(0, 8);
    ShrBelow(0, 16);
    ShrBelow(0, 32);
  }

  lemma AtLeastPow2(j: nat, k: nat)
    requires j <= k
    ensures Pow2(j) <= Pow2(k)
  {
    if j < k { Pow2Monotone(j, k); }
  }

  lemma AndOddMask(x: nat, h: nat)
    requires 0 < x && 0 < h
    ensures And(x, 2 * h - 1) == 2 * And(x / 2, h - 1) + x % 2
  {
    var mask := 2 * h - 1;
    assert mask / 2 == h - 1 && mask % 2 == 1;
  }

  lemma {:induction false} AndOnesIsMod(x: nat, k: nat)
    ensures And(x, Pow2(k) - 1) == x % Pow2(k)
    decreases k
  {
    if k > 0 && x > 0 {
      AndOnesIsMod(x / 2, k - 1);
      AndModStep(x, Pow2(k - 1));
    } else if k > 0 {
      ModUnique(0, Pow2(k), 0, 0);
    }
  }

  lemma AndModStep(x: nat, h: nat)
    requires 0 < x && 0 < h
    requires And(x / 2, h - 1) == (x / 2) % h
    ensures And(x, 2 * h - 1) == x % (2 * h)
  {
    AndOddMask(x, h);
    HalveMod(x, h);
  }

  lemma MulApart(d: int, m: int)
    requires 0 < m
    ensures d >= 1 ==> d * m >= m
    ensures d <= -1 ==> d * m <= -m
  {
    if d >= 1 {
      MulAtLeast(d, m);
    } else if d <= -1 {
      MulAtLeast(-d, m);
      assert d * m == -((-d) * m);
    }
  }

  lemma MulAtLeast(d: nat, m: nat)
    requires 1 <= d
    ensures d * m >= m
  {
    assert d * m == (d - 1) * m + m;
  }

  lemma ModUnique(x: int, m: nat, q: int, r: nat)
    requires 0 < m && r < m && x == q * m + r
    ensures x % m == r && x / m == q
  {
    var q' := x / m;
    var r' := x % m;
    DivMod(x, m);
    assert (q - q') * m == r' - r;
    MulApart(q - q', m);
  }

  lemma DivMod(x: int, m: nat)
    requires 0 < m
    ensures x == (x / m) * m + x % m && 0 <= x % m < m
  {
  }

  lemma HalveMod(x: nat, h: nat)
    requires 0 < h
    ensures x % (2 * h) == 2 * ((x / 2) % h) + x % 2
  {
    var y := x / 2;
    var q := y / h;
    var r := y % h;
    DivMod(y, h);
    assert q * (2 * h) == 2 * (q * h);
    ModUnique(x, 2 * h, q, 2 * r + x % 2);
  }

  lemma ModApart(a: nat, b: nat, m: nat)
    requires a < b < a + m
    ensures a % m != b % m
  {
    if a % m == b % m {
      DivMod(a, m);
      DivMod(b, m);
      var d := b / m - a / m;
      assert d * m == b - a;
      MulApart(d, m);
    }
  }

  lemma ModPeriod(x: nat, m: nat)
    requires 0 < m
    ensures (x + m) % m == x % m
  {
    DivMod(x, m);
    assert (x / m + 1) * m == (x / m) * m + m;
    ModUnique(x + m, m, x / m + 1, x % m);
  }

  /** The slot of ticket `pos` in a ring whose mask is `mask`. */
  function Slot(mask: nat, pos: nat): (i: nat)
    requires IsPow2(mask + 1)
    ensures i <= mask
  {
    SlotIsMod(mask, pos);
    And(pos, mask)
  }

  lemma SlotIsMod(mask: nat, pos: nat)
    requires IsPow2(mask + 1)
    ensures And(pos, mask) == pos % (mask + 1)
  {
    var k: nat :| Pow2(k) == mask + 1;
    AndOnesIsMod(pos, k);
  }

  /** Any mask+1 consecutive tickets fall into pairwise distinct slots, and the slots repeat
      with that period. */
  lemma SlotsDistinct(mask: nat, lo: nat)
    requires IsPow2(mask + 1)
    ensures forall a: nat, b: nat {:trigger Slot(mask, a), Slot(mask, b)} ::
              lo <= a < b < lo + mask + 1 ==> Slot(mask, a) != Slot(mask, b)
    ensures Slot(mask, lo + mask + 1) == Slot(mask, lo)
  {
    forall a: nat, b: nat {:trigger Slot(mask, a), Slot(mask, b)} | lo <= a < b < lo + mask + 1
      ensures Slot(mask, a) != Slot(mask, b)
    {
      ModApart(a, b, mask + 1);
      SlotIsMod(mask, a);
      SlotIsMod(mask, b);
    }
    ModPeriod(lo, mask + 1);
    SlotIsMod(mask, lo);
    SlotIsMod(mask, lo + mask + 1);
  }
}
