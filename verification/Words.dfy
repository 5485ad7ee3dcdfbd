/** Machine words as natural numbers.  The bitwise operators and shifts are defined bit by bit, so
    that code which packs several things into one word can be written as the source writes it; the
    lemmas say what those operators compute on the words that occur. */
module Words {
  /** One more than the largest unsigned 32-bit value. */
  const MOD32: nat := 0x1_0000_0000

  function Pow2(e: nat): (p: nat)
    ensures p >= 1
  {
    if e == 0 then 1 else 2 * Pow2(e - 1)
  }

  function Or(a: nat, b: nat): nat {
    if a == 0 && b == 0 then 0
    else 2 * Or(a / 2, b / 2) + (if a % 2 == 1 || b % 2 == 1 then 1 else 0)
  }

  function And(a: nat, b: nat): nat {
    if a == 0 && b == 0 then 0
    else 2 * And(a / 2, b / 2) + (if a % 2 == 1 && b % 2 == 1 then 1 else 0)
  }

  function Xor(a: nat, b: nat): nat {
    if a == 0 && b == 0 then 0
    else 2 * Xor(a / 2, b / 2) + (if a % 2 != b % 2 then 1 else 0)
  }

  /** `x << e` on a 32-bit word: bits shifted out at the top are lost. */
  function Shl(x: nat, e: nat): nat {
    if e == 0 then x % MOD32 else (2 * Shl(x, e - 1)) % MOD32
  }

  /** `x >> e`. */
  function Shr(x: nat, e: nat): nat
    decreases e
  {
    if e == 0 then x else Shr(x / 2, e - 1)
  }

  /** Subtraction on 32-bit words. */
  function Sub32(x: nat, y: nat): nat
    requires x < MOD32 && y < MOD32
  {
    if x >= y then x - y else x + MOD32 - y
  }

  lemma {:induction false} Pow2Monotone(a: nat, b: nat)
    requires a <= b
    ensures Pow2(a) <= Pow2(b)
  {
    if a < b {
      Pow2Monotone(a, b - 1);
    }
  }

  lemma {:induction false} Pow2Of31()
    ensures Pow2(31) == 0x8000_0000 && Pow2(32) == MOD32
  {
    assert Pow2(8) == 0x100;
    assert Pow2(16) == 0x1_0000;
    assert Pow2(24) == 0x100_0000;
  }

  // ----- Shifts -----

  lemma {:induction false} ShlOne(x: nat)
    requires 2 * x < MOD32
    ensures Shl(x, 1) == 2 * x
  {
  }

  lemma {:induction false} ShlPow2(e: nat)
    requires e <= 31
    ensures Shl(1, e) == Pow2(e) <= 0x8000_0000
  {
    if e > 0 {
      ShlPow2(e - 1);
      Pow2Of31();
      Pow2Monotone(e, 31);
    }
  }

  lemma {:induction false} ShlGone(e: nat)
    requires e >= 32
    ensures Shl(1, e) == 0
  {
    if e == 32 {
      ShlPow2(31);
      Pow2Of31();
    } else {
      ShlGone(e - 1);
    }
  }

  lemma {:induction false} ShrOne(x: nat)
    ensures Shr(x, 1) == x / 2
  {
  }

  lemma {:induction false} ShrSmall(x: nat, e: nat)
    requires x < Pow2(e)
    ensures Shr(x, e) == 0
    decreases e
  {
    if e > 0 {
      ShrSmall(x / 2, e - 1);
    }
  }

  /** Adding a bit above `x` adds one to what is shifted down to it. */
  lemma {:induction false} ShrTop(x: nat, e: nat)
    requires x < Pow2(e)
    ensures Shr(x + Pow2(e), e) == 1
    decreases e
  {
    if e > 0 {
      assert (x + Pow2(e)) / 2 == x / 2 + Pow2(e - 1);
      ShrTop(x / 2, e - 1);
    }
  }

  /** Adding a higher bit does not change a lower one. */
  lemma {:induction false} ShrBelow(x: nat, r: nat, j: nat)
    requires j < r
    ensures Shr(x + Pow2(r), j) % 2 == Shr(x, j) % 2
    decreases j
  {
    if j == 0 {
      assert x + Pow2(r) == x + 2 * Pow2(r - 1);
    } else {
      assert (x + Pow2(r)) / 2 == x / 2 + Pow2(r - 1);
      ShrBelow(x / 2, r - 1, j - 1);
    }
  }

  // ----- Bits -----

  lemma {:induction false} OrZero(x: nat)
    ensures Or(x, 0) == x
  {
    if x > 0 {
      OrZero(x / 2);
    }
  }

  /** Setting a bit above all the bits of a word adds its weight. */
  lemma {:induction false} OrAbove(x: nat, d: nat)
    requires x < Pow2(d)
    ensures Or(x, Pow2(d)) == x + Pow2(d)
    decreases d
  {
    if d > 0 {
      OrAbove(x / 2, d - 1);
      assert Pow2(d) / 2 == Pow2(d - 1) && Pow2(d) % 2 == 0;
    } else {
      assert Or(0, 1) == 1;
    }
  }

  lemma {:induction false} AndZero(x: nat)
    ensures And(x, 0) == 0
  {
    if x > 0 {
      AndZero(x / 2);
    }
  }

  /** Masking a word with one bit tests that bit. */
  lemma {:induction false} TestBit(x: nat, i: nat)
    ensures And(x, Pow2(i)) != 0 <==> Shr(x, i) % 2 == 1
    decreases i
  {
    if i == 0 {
      AndZero(x / 2);
      assert And(x, 1) == 2 * And(x / 2, 0) + (if x % 2 == 1 then 1 else 0);
    } else {
      TestBit(x / 2, i - 1);
      assert Pow2(i) / 2 == Pow2(i - 1) && Pow2(i) % 2 == 0;
      assert And(x, Pow2(i)) == 2 * And(x / 2, Pow2(i - 1));
    }
  }

  /** A bit of an or is set if it is set in either word. */
  lemma {:induction false} OrBit(x: nat, y: nat, i: nat)
    ensures Shr(Or(x, y), i) % 2 == 1 <==> Shr(x, i) % 2 == 1 || Shr(y, i) % 2 == 1
    decreases i
  {
    if x == 0 && y == 0 {
      ShrZero(i);
    } else if i > 0 {
      assert Or(x, y) / 2 == Or(x / 2, y / 2);
      OrBit(x / 2, y / 2, i - 1);
    }
  }

  lemma {:induction false} ShrZero(i: nat)
    ensures Shr(0, i) == 0
  {
    if i > 0 {
      ShrZero(i - 1);
    }
  }

  lemma {:induction false} OrBelow(x: nat, y: nat, d: nat)
    requires x < Pow2(d) && y < Pow2(d)
    ensures Or(x, y) < Pow2(d)
    decreases d
  {
    if d > 0 {
      OrBelow(x / 2, y / 2, d - 1);
    }
  }

  /** A power of two is one bit. */
  lemma {:induction false} BitOfPow2(d: nat, i: nat)
    ensures Shr(Pow2(d), i) % 2 == 1 <==> i == d
    decreases i
  {
    if d == 0 {
      if i > 0 {
        ShrZero(i - 1);
      }
    } else {
      assert Pow2(d) / 2 == Pow2(d - 1) && Pow2(d) % 2 == 0;
      if i > 0 {
        BitOfPow2(d - 1, i - 1);
      }
    }
  }

  /** Flipping the top bit of a word that has it set subtracts its weight. */
  lemma {:induction false} XorTop(x: nat, d: nat)
    requires Pow2(d) <= x < 2 * Pow2(d)
    ensures Xor(x, Pow2(d)) == x - Pow2(d)
    decreases d
  {
    if d > 0 {
      XorTop(x / 2, d - 1);
      assert Pow2(d) / 2 == Pow2(d - 1) && Pow2(d) % 2 == 0;
    } else {
      assert Xor(1, 1) == 0;
    }
  }

  lemma {:induction false} TopBit(x: nat, d: nat)
    requires x < 2 * Pow2(d)
    ensures And(x, Pow2(d)) != 0 <==> x >= Pow2(d)
  {
    TestBit(x, d);
    if x >= Pow2(d) {
      ShrTop(x - Pow2(d), d);
    } else {
      ShrSmall(x, d);
    }
  }

  lemma {:induction false} LowBit(x: nat)
    ensures And(x, 1) != 0 <==> x % 2 == 1
    ensures Or(x, 1) == if x % 2 == 0 then x + 1 else x
  {
    TestBit(x, 0);
    assert Pow2(0) == 1 && Shr(x, 0) == x;
    OrZero(x / 2);
    assert Or(x, 1) == 2 * Or(x / 2, 0) + 1;
  }

  lemma {:induction false} EvenAndOdd(x: int)
    ensures (2 * x) % 2 == 0 && (2 * x + 1) % 2 == 1
  {
  }

  // ----- Products and quotients -----

  lemma {:induction false} MulMonotone(q: nat, u: int, v: int)
    requires u <= v
    ensures q * u <= q * v
  {
  }

  lemma {:induction false} MulSucc(q: nat, v: int)
    ensures q * (v + 1) == q * v + q
  {
  }

  lemma {:induction false} Cancel(q: nat, u: int, v: int)
    requires q > 0
    ensures q * u <= q * v ==> u <= v
    ensures q * u < q * v ==> u < v
  {
    if u > v {
      MulMonotone(q, v + 1, u);
      MulSucc(q, v);
    }
  }

  lemma {:induction false} DivBounds(w: nat, b: nat)
    requires b > 0
    ensures b * (w / b) <= w < b * (w / b) + b
  {
  }
}
