/** Bitwise operators on natural numbers, bit by bit, and what they mean arithmetically. */
module Bits {

  function Pow2(h: nat): (p: nat)
    ensures p > 0
  {
    if h == 0 then 1 else 2 * Pow2(h - 1)
  }

  function And(a: nat, b: nat): nat {
    if a == 0 || b == 0 then 0 else 2 * And(a / 2, b / 2) + (if a % 2 == 1 && b % 2 == 1 then 1 else 0)
  }

  function Or(a: nat, b: nat): nat {
    if a == 0 then b
    else if b == 0 then a
    else 2 * Or(a / 2, b / 2) + (if a % 2 == 1 || b % 2 == 1 then 1 else 0)
  }

  function Shr(a: nat, k: nat): nat { if k == 0 then a else Shr(a / 2, k - 1) }

  function Shl(a: nat, k: nat): nat { if k == 0 then a else 2 * Shl(a, k - 1) }

  /** The `h` lowest bits are zero. */
  ghost predicate Aligned(v: nat, h: nat) { exists q: nat :: v == Shl(q, h) }

  /** The remainder, by repeated subtraction. */
  function Rem(x: nat, n: nat): (r: nat)
    requires n > 0
    ensures r < n
  {
    if x < n then x else Rem(x - n, n)
  }

  // ----------------------------------------------------------------- remainders

  lemma {:induction false} RemQuotient(x: nat, n: nat) returns (q: nat)
    requires n > 0
    ensures x == q * n + Rem(x, n)
  {
    if x < n {
      q := 0;
    } else {
      q := RemQuotient(x - n, n);
      q := q + 1;
    }
  }

  lemma MultipleGap(p: nat, q: nat, n: nat)
    requires p < q
    ensures q * n >= p * n + n
  {
    assert q * n == p * n + (q - p) * n;
    assert (q - p) * n == (q - p - 1) * n + n;
  }

  lemma SameQuotient(p: nat, r: nat, q: nat, s: nat, n: nat)
    requires r < n && s < n && p * n + r == q * n + s
    ensures r == s
  {
    if p < q {
      MultipleGap(p, q, n);
      assert false;
    }
    if q < p {
      MultipleGap(q, p, n);
      assert false;
    }
  }

  /** Rem is the ordinary remainder. */
  lemma RemIsMod(x: nat, n: nat)
    requires n > 0
    ensures Rem(x, n) == x % n
  {
    var q := RemQuotient(x, n);
    SameQuotient(q, Rem(x, n), x / n, x % n, n);
  }

  lemma {:induction false} RemDouble(x: nat, m: nat)
    requires m > 0
    ensures Rem(x, 2 * m) == 2 * Rem(x / 2, m) + x % 2
  {
    if x >= 2 * m {
      RemDouble(x - 2 * m, m);
      assert (x - 2 * m) / 2 == x / 2 - m;
    }
  }

  lemma {:induction false} RemByte(x: nat)
    ensures Rem(x, 256) == x % 256
  {
    if x >= 256 {
      RemByte(x - 256);
    }
  }

  /** Stepping on by less than the modulus wraps at most once. */
  lemma {:induction false} RemStep(c: nat, j: nat, n: nat)
    requires j < n
    ensures Rem(c + j, n) == if Rem(c, n) + j < n then Rem(c, n) + j else Rem(c, n) + j - n
  {
    if c >= n {
      RemStep(c - n, j, n);
    }
  }

  lemma RemCycle(c: nat, n: nat)
    requires n > 0
    ensures Rem(c + n, n) == Rem(c, n)
  {
  }

  /** A larger power of two does not show in the remainder by a smaller one. */
  lemma {:induction false} RemPow2(x: nat, h: nat, t: nat)
    requires h <= t
    ensures Rem(x + Pow2(t), Pow2(h)) == Rem(x, Pow2(h))
    decreases t
  {
    if h == t {
      RemCycle(x, Pow2(h));
    } else {
      RemPow2(x, h, t - 1);
      RemPow2(x + Pow2(t - 1), h, t - 1);
      assert x + Pow2(t) == x + Pow2(t - 1) + Pow2(t - 1);
    }
  }

  /** Wrapping at a larger power of two does not show either. */
  lemma {:induction false} RemRem(x: nat, h: nat, t: nat)
    requires h <= t
    ensures Rem(Rem(x, Pow2(t)), Pow2(h)) == Rem(x, Pow2(h))
  {
    if x >= Pow2(t) {
      RemRem(x - Pow2(t), h, t);
      RemPow2(x - Pow2(t), h, t);
    }
  }

  /** Counting on after a wrap. */
  lemma {:induction false} RemSucc(x: nat, n: nat)
    requires n > 0
    ensures Rem(x + 1, n) == if Rem(x, n) + 1 == n then 0 else Rem(x, n) + 1
  {
    if x >= n {
      RemSucc(x - n, n);
    }
  }

  // ------------------------------------------------------------ masks and bytes

  /** A mask of `h` ones keeps the remainder. */
  lemma {:induction false} AndMask(x: nat, h: nat)
    ensures And(x, Pow2(h) - 1) == Rem(x, Pow2(h))
  {
    if h > 0 {
      RemDouble(x, Pow2(h - 1));
      AndMask(x / 2, h - 1);
      assert (Pow2(h) - 1) / 2 == Pow2(h - 1) - 1 && (Pow2(h) - 1) % 2 == 1;
    }
  }

  lemma AndEven(x: nat, m: nat)
    ensures And(x, 2 * m) == 2 * And(x / 2, m)
  {
  }

  /** Masking out one byte and shifting it down. */
  lemma {:induction false} AndByte(x: nat, k: nat)
    ensures Shr(And(x, 255 * Pow2(k)), k) == Shr(x, k) % 256
  {
    if k == 0 {
      Pow2Values();
      AndMask(x, 8);
      RemByte(x);
    } else {
      AndByte(x / 2, k - 1);
      AndEven(x, 255 * Pow2(k - 1));
    }
  }

  lemma OrHalf(a: nat, b: nat)
    ensures Or(a, b) / 2 == Or(a / 2, b / 2)
    ensures Or(a, b) % 2 == (if a % 2 == 1 || b % 2 == 1 then 1 else 0)
  {
  }

  lemma {:induction false} OrShr(a: nat, b: nat, k: nat)
    ensures Shr(Or(a, b), k) == Or(Shr(a, k), Shr(b, k))
  {
    if k > 0 {
      OrHalf(a, b);
      OrShr(a / 2, b / 2, k - 1);
    }
  }

  lemma OrOfDoubles(x: nat, i: nat, y: nat, j: nat)
    requires i < 2 && j < 2
    ensures Or(2 * x + i, 2 * y + j) == 2 * Or(x, y) + if i == 1 || j == 1 then 1 else 0
  {
    OrHalf(2 * x + i, 2 * y + j);
  }

  lemma OrThenRem(a: nat, b: nat, m: nat)
    requires m > 0
    ensures Rem(Or(a, b), 2 * m) == 2 * Rem(Or(a / 2, b / 2), m) + if a % 2 == 1 || b % 2 == 1 then 1 else 0
  {
    OrHalf(a, b);
    RemDouble(Or(a, b), m);
  }

  lemma RemThenOr(a: nat, b: nat, m: nat)
    requires m > 0
    ensures Or(Rem(a, 2 * m), Rem(b, 2 * m)) ==
            2 * Or(Rem(a / 2, m), Rem(b / 2, m)) + if a % 2 == 1 || b % 2 == 1 then 1 else 0
  {
    OrOfDoubles(Rem(a / 2, m), a % 2, Rem(b / 2, m), b % 2);
    RemDouble(a, m);
    RemDouble(b, m);
  }

  lemma OrRemDouble(a: nat, b: nat, m: nat)
    requires m > 0 && Rem(Or(a / 2, b / 2), m) == Or(Rem(a / 2, m), Rem(b / 2, m))
    ensures Rem(Or(a, b), 2 * m) == Or(Rem(a, 2 * m), Rem(b, 2 * m))
  {
    calc {
      Rem(Or(a, b), 2 * m);
    ==  { OrThenRem(a, b, m); }
      2 * Rem(Or(a / 2, b / 2), m) + if a % 2 == 1 || b % 2 == 1 then 1 else 0;
    ==
      2 * Or(Rem(a / 2, m), Rem(b / 2, m)) + if a % 2 == 1 || b % 2 == 1 then 1 else 0;
    ==  { RemThenOr(a, b, m); }
      Or(Rem(a, 2 * m), Rem(b, 2 * m));
    }
  }

  lemma {:induction false} OrRem(a: nat, b: nat, h: nat)
    ensures Rem(Or(a, b), Pow2(h)) == Or(Rem(a, Pow2(h)), Rem(b, Pow2(h)))
  {
    if h > 0 {
      OrRem(a / 2, b / 2, h - 1);
      OrRemDouble(a, b, Pow2(h - 1));
    }
  }

  lemma OrByte(a: nat, b: nat)
    ensures Or(a, b) % 256 == Or(a % 256, b % 256)
  {
    Pow2Values();
    OrRem(a, b, 8);
    RemByte(a);
    RemByte(b);
    RemByte(Or(a, b));
  }

  lemma {:induction false} ShrShr(x: nat, j: nat, k: nat)
    ensures Shr(Shr(x, j), k) == Shr(x, j + k)
  {
    if j > 0 {
      ShrShr(x / 2, j - 1, k);
    }
  }

  /** Shifting by a byte divides by 256. */
  lemma ShrByte(x: nat)
    ensures Shr(x, 8) == x / 256
  {
    ShrFour(x);
    ShrFour(x / 16);
    ShrShr(x, 4, 4);
  }

  lemma ShrFour(x: nat)
    ensures Shr(x, 4) == x / 16
  {
    ShrShr(x, 2, 2);
    assert Shr(x, 2) == Shr(x / 2, 1) == x / 4;
    assert Shr(x / 4, 2) == Shr(x / 8, 1) == x / 16;
  }

  /** Shifting `k` ones out of `h + k` leaves `h` ones. */
  lemma {:induction false} ShrOnes(h: nat, k: nat)
    ensures Shr(Pow2(h + k) - 1, k) == Pow2(h) - 1
  {
    if k > 0 {
      assert (Pow2(h + k) - 1) / 2 == Pow2(h + k - 1) - 1;
      ShrOnes(h, k - 1);
    }
  }

  /** Or of a number with `h` low zero bits and one below 2^h is their sum. */
  lemma {:induction false} OrDisjoint(a: nat, b: nat, h: nat)
    requires Aligned(a, h) && b < Pow2(h)
    ensures Or(a, b) == a + b
  {
    if h > 0 {
      var q: nat :| a == Shl(q, h);
      assert a == 2 * Shl(q, h - 1);
      OrDisjoint(a / 2, b / 2, h - 1);
    }
  }

  /** Filling the low zero bits of a number does not lengthen it. */
  lemma {:induction false} AlignedFits(a: nat, b: nat, h: nat, t: nat)
    requires h <= t && Aligned(a, h) && a < Pow2(t) && b < Pow2(h)
    ensures a + b < Pow2(t)
  {
    if h > 0 {
      var q: nat :| a == Shl(q, h);
      assert a == 2 * Shl(q, h - 1);
      AlignedFits(a / 2, b / 2, h - 1, t - 1);
    }
  }

  lemma {:induction false} Pow2Adds(h: nat, k: nat)
    ensures Pow2(h + k) == Pow2(h) * Pow2(k)
  {
    if h > 0 {
      Pow2Adds(h - 1, k);
      assert 2 * (Pow2(h - 1) * Pow2(k)) == Pow2(h) * Pow2(k);
    }
  }

  lemma Pow2Values()
    ensures Pow2(8) == 256 && Pow2(32) == 0x1_0000_0000
  {
    assert Pow2(4) == 16;
    Pow2Adds(4, 4);
    Pow2Adds(8, 8);
    Pow2Adds(16, 16);
  }
}
