/**
 * Bitwise arithmetic on natural numbers. `Bit` is the reference; the operators of C are
 * defined by recursion on binary digits and proved to act bit by bit.
 */
module Bits {

  function Pow2(n: nat): (p: nat)
    ensures p > 0
  {
    if n == 0 then 1 else 2 * Pow2(n - 1)
  }

  /** Bit k of w. */
  predicate Bit(w: nat, k: nat)
    decreases k
  {
    if k == 0 then w % 2 == 1 else Bit(w / 2, k - 1)
  }

  function Or(a: nat, b: nat): nat
    decreases a + b
  {
    if a == 0 && b == 0 then 0
    else 2 * Or(a / 2, b / 2) + (if a % 2 == 1 || b % 2 == 1 then 1 else 0)
  }

  function And(a: nat, b: nat): nat
    decreases a + b
  {
    if a == 0 && b == 0 then 0
    else 2 * And(a / 2, b / 2) + (if a % 2 == 1 && b % 2 == 1 then 1 else 0)
  }

  function Xor(a: nat, b: nat): nat
    decreases a + b
  {
    if a == 0 && b == 0 then 0
    else 2 * Xor(a / 2, b / 2) + (if a % 2 != b % 2 then 1 else 0)
  }

  /** a & ~b. */
  function AndNot(a: nat, b: nat): nat
    decreases a + b
  {
    if a == 0 && b == 0 then 0
    else 2 * AndNot(a / 2, b / 2) + (if a % 2 == 1 && b % 2 == 0 then 1 else 0)
  }

  /** w << k. */
  function Shl(w: nat, k: nat): nat { if k == 0 then w else 2 * Shl(w, k - 1) }

  /** w >> k. */
  function Shr(w: nat, k: nat): nat
    decreases k
  {
    if k == 0 then w else Shr(w / 2, k - 1)
  }

  /** Number of binary digits. */
  function BitLen(w: nat): nat { if w == 0 then 0 else 1 + BitLen(w / 2) }

  lemma {:induction false} ZeroHasNoBits(k: nat)
    ensures !Bit(0, k)
  {
    if k > 0 { ZeroHasNoBits(k - 1); }
  }

  lemma {:induction false} OrBit(a: nat, b: nat, k: nat)
    ensures Bit(Or(a, b), k) <==> Bit(a, k) || Bit(b, k)
    decreases k
  {
    if a == 0 && b == 0 {
      ZeroHasNoBits(k);
    } else if k > 0 {
      assert Or(a, b) / 2 == Or(a / 2, b / 2);
      OrBit(a / 2, b / 2, k - 1);
    }
  }

  lemma {:induction false} AndNotBit(a: nat, b: nat, k: nat)
    ensures Bit(AndNot(a, b), k) <==> Bit(a, k) && !Bit(b, k)
    decreases k
  {
    if a == 0 && b == 0 {
      ZeroHasNoBits(k);
    } else if k > 0 {
      assert AndNot(a, b) / 2 == AndNot(a / 2, b / 2);
      AndNotBit(a / 2, b / 2, k - 1);
    }
  }

  lemma {:induction false} Pow2Bit(n: nat, k: nat)
    ensures Bit(Pow2(n), k) <==> k == n
    decreases n
  {
    if n == 0 {
      if k > 0 { ZeroHasNoBits(k - 1); }
    } else if k > 0 {
      assert Pow2(n) / 2 == Pow2(n - 1);
      Pow2Bit(n - 1, k - 1);
    }
  }

  /** Numbers below 2^n have no bit at n or above. */
  lemma {:induction false} HighBits(w: nat, n: nat, k: nat)
    requires w < Pow2(n) && n <= k
    ensures !Bit(w, k)
    decreases n
  {
    if n == 0 {
      ZeroHasNoBits(k);
    } else {
      HighBits(w / 2, n - 1, k - 1);
    }
  }

  lemma {:induction false} OrBound(a: nat, b: nat, n: nat)
    requires a < Pow2(n) && b < Pow2(n)
    ensures Or(a, b) < Pow2(n)
    decreases n
  {
    if n > 0 { OrBound(a / 2, b / 2, n - 1); }
  }

  lemma {:induction false} AndNotBound(a: nat, b: nat)
    ensures AndNot(a, b) <= a
    decreases a + b
  {
    if a > 0 || b > 0 { AndNotBound(a / 2, b / 2); }
  }

  lemma {:induction false} NonZeroHasBit(w: nat)
    requires w > 0
    ensures BitLen(w) > 0 && Bit(w, BitLen(w) - 1)
  {
    if w > 1 {
      NonZeroHasBit(w / 2);
    }
  }

  /** BitLen is the least n with w < 2^n. */
  lemma {:induction false} BitLenBound(w: nat, n: nat)
    ensures w < Pow2(BitLen(w))
    ensures w < Pow2(n) <==> BitLen(w) <= n
    decreases w
  {
    if w > 0 {
      BitLenBound(w / 2, if n > 0 then n - 1 else 0);
    }
  }

  // ---- shifts

  lemma {:induction false} TimesGrows(x: nat, y: nat, m: nat)
    requires x < y
    ensures x * m + m <= y * m
    decreases y
  {
    if x < y - 1 {
      TimesGrows(x, y - 1, m);
    }
    assert (y - 1) * m + m == y * m;
  }

  lemma DivUnique(x: nat, m: nat, q: nat, r: nat)
    requires m > 0 && r < m && x == q * m + r
    ensures x / m == q && x % m == r
  {
    var (a, b) := (x / m, x % m);
    assert x == a * m + b;
    if a > q {
      TimesGrows(q, a, m);
    } else if a < q {
      TimesGrows(a, q, m);
    }
  }

  lemma HalveQuotient(w: nat, p: nat)
    requires p > 0
    ensures w / (2 * p) == (w / 2) / p
    ensures (w % (2 * p)) / 2 == (w / 2) % p && (w % (2 * p)) % 2 == w % 2
  {
    var (h, e) := (w / 2, w % 2);
    var (q, r) := (h / p, h % p);
    assert w == q * (2 * p) + (2 * r + e) by {
      assert h == q * p + r;
      assert 2 * (q * p) == q * (2 * p);
    }
    DivUnique(w, 2 * p, q, 2 * r + e);
  }

  lemma {:induction false} ShrIsDivision(w: nat, m: nat)
    ensures Shr(w, m) == w / Pow2(m)
    decreases m
  {
    if m > 0 {
      HalveQuotient(w, Pow2(m - 1));
      ShrIsDivision(w / 2, m - 1);
    }
  }

  /** Shifting right by m moves bit m + k to k. */
  lemma {:induction false} ShiftRightBit(w: nat, m: nat, k: nat)
    ensures Bit(Shr(w, m), k) <==> Bit(w, m + k)
    decreases m
  {
    if m > 0 {
      ShiftRightBit(w / 2, m - 1, k);
    }
  }

  /** Masking with 2^m - 1 keeps exactly the bits below m. */
  lemma {:induction false} MaskBit(w: nat, m: nat, k: nat)
    ensures Bit(w % Pow2(m), k) <==> k < m && Bit(w, k)
    decreases m
  {
    if m == 0 {
      ZeroHasNoBits(k);
    } else {
      HalveQuotient(w, Pow2(m - 1));
      if k > 0 { MaskBit(w / 2, m - 1, k - 1); }
    }
  }

  /** Shifting left by m moves bit k to m + k and clears the bits below. */
  lemma {:induction false} ShiftLeftBit(w: nat, m: nat, k: nat)
    ensures Bit(Shl(w, m), k) <==> m <= k && Bit(w, k - m)
    decreases m
  {
    if m > 0 && k > 0 {
      assert Shl(w, m) / 2 == Shl(w, m - 1);
      ShiftLeftBit(w, m - 1, k - 1);
    }
  }

  lemma {:induction false} ShiftLeftBound(w: nat, n: nat, m: nat)
    requires w < Pow2(n)
    ensures Shl(w, m) < Pow2(n + m)
    decreases m
  {
    if m > 0 { ShiftLeftBound(w, n, m - 1); }
  }

  /** Numbers below 2^n that agree on their first n bits are equal. */
  lemma {:induction false} SameBits(a: nat, b: nat, n: nat)
    requires a < Pow2(n) && b < Pow2(n) && forall k :: 0 <= k < n ==> Bit(a, k) == Bit(b, k)
    ensures a == b
    decreases n
  {
    if n > 0 {
      forall k | 0 <= k < n - 1 ensures Bit(a / 2, k) == Bit(b / 2, k) {
        assert Bit(a, k + 1) == Bit(b, k + 1);
      }
      SameBits(a / 2, b / 2, n - 1);
      assert Bit(a, 0) == Bit(b, 0);
    }
  }

  lemma {:induction false} Pow2Monotone(m: nat, n: nat)
    requires m <= n
    ensures Pow2(m) <= Pow2(n)
  {
    if m < n { Pow2Monotone(m, n - 1); }
  }

  lemma WordIsPow2()
    ensures Pow2(32) == 0x1_0000_0000 && Pow2(31) == 0x8000_0000
  {
    assert Pow2(8) == 256;
    assert Pow2(16) == 0x1_0000;
    assert Pow2(24) == 0x100_0000;
  }
}
