/** Compact targets and difficulty retargeting. */
module Difficulty {
  import opened Core
  import opened Words

  // ----- Powers and lengths in base 256 -----

  function Pow256(e: nat): (p: nat)
    ensures p >= 1
  {
    if e == 0 then 1 else 256 * Pow256(e - 1)
  }

  /** The number of bytes of a number. */
  function ByteLen(n: nat): nat {
    if n == 0 then 0 else 1 + ByteLen(n / 256)
  }

  lemma {:induction false} ByteLenBounds(n: nat)
    ensures n < Pow256(ByteLen(n))
    ensures n > 0 ==> Pow256(ByteLen(n) - 1) <= n
  {
    if n > 0 {
      ByteLenBounds(n / 256);
    }
  }

  lemma {:induction false} Pow256Monotone(a: nat, b: nat)
    requires a <= b
    ensures Pow256(a) <= Pow256(b)
  {
    if a < b {
      Pow256Monotone(a, b - 1);
    }
  }

  lemma {:induction false} ByteLenUnique(n: nat, e: nat)
    requires n < Pow256(e)
    requires e > 0 ==> Pow256(e - 1) <= n
    ensures ByteLen(n) == e
  {
    ByteLenBounds(n);
    if ByteLen(n) < e {
      Pow256Monotone(ByteLen(n), e - 1);
    } else if e < ByteLen(n) {
      Pow256Monotone(e, ByteLen(n) - 1);
    }
  }

  lemma {:induction false} ByteLenMonotone(a: nat, b: nat)
    requires a <= b
    ensures ByteLen(a) <= ByteLen(b)
  {
    ByteLenBounds(a);
    ByteLenBounds(b);
    if ByteLen(b) < ByteLen(a) {
      Pow256Monotone(ByteLen(b), ByteLen(a) - 1);
    }
  }

  /** Shift right and left by whole bytes. */
  function ShrBytes(n: nat, e: nat): nat
    decreases e
  {
    if e == 0 then n else ShrBytes(n / 256, e - 1)
  }

  function ShlBytes(n: nat, e: nat): nat {
    if e == 0 then n else 256 * ShlBytes(n, e - 1)
  }

  // ----- The compact form -----

  /** The compact form of a non-negative number: its length in bytes and its three leading bytes,
      with one more byte of length when the leading bit would read as a sign. */
  function BigToCompact(n: nat): uint32 {
    if n == 0 then 0
    else
      var exponent := ByteLen(n);
      var mantissa := if exponent <= 3 then ShlBytes(n, 3 - exponent) else ShrBytes(n, exponent - 3);
      if (mantissa / 0x80_0000) % 2 == 1 then Pack(exponent + 1, mantissa / 256) else Pack(exponent, mantissa)
  }

  /** The exponent goes into the top byte; what does not fit there is lost. */
  function Pack(exponent: nat, mantissa: nat): uint32 {
    (exponent % 256) * 0x100_0000 + mantissa % 0x100_0000
  }

  function CompactToBig(compact: uint32): int {
    var mantissa := compact % 0x80_0000;
    var isNegative := (compact / 0x80_0000) % 2 == 1;
    var exponent := compact / 0x100_0000;
    var bn := if exponent <= 3 then ShrBytes(mantissa, 3 - exponent) else ShlBytes(mantissa, exponent - 3);
    if isNegative then -bn else bn
  }

  // ----- What the compact form keeps -----

  /** The number of low bytes that do not fit. */
  function Dropped(n: nat): nat {
    if ByteLen(2 * n) <= 3 then 0 else ByteLen(2 * n) - 3
  }

  /** A number with its lowest `e` bytes cleared. */
  function ClearLow(n: nat, e: nat): nat {
    ShlBytes(ShrBytes(n, e), e)
  }

  lemma {:induction false} ShrLast(n: nat, e: nat)
    ensures ShrBytes(n, e + 1) == ShrBytes(n, e) / 256
    decreases e
  {
    if e > 0 {
      ShrLast(n / 256, e - 1);
    }
  }

  lemma {:induction false} ShrOfShl(n: nat, e: nat)
    ensures ShrBytes(ShlBytes(n, e), e) == n
  {
    if e > 0 {
      ShrOfShl(n, e - 1);
    }
  }

  lemma {:induction false} ShlAdd(n: nat, a: nat, b: nat)
    ensures ShlBytes(ShlBytes(n, a), b) == ShlBytes(n, a + b)
  {
    if b > 0 {
      ShlAdd(n, a, b - 1);
    }
  }

  lemma {:induction false} ShlPow(n: nat, e: nat)
    ensures ShlBytes(n, e) == n * Pow256(e)
  {
    if e > 0 {
      ShlPow(n, e - 1);
    }
  }

  lemma {:induction false} ShlMonotone(a: nat, b: nat, e: nat)
    requires a <= b
    ensures ShlBytes(a, e) <= ShlBytes(b, e)
  {
    if e > 0 {
      ShlMonotone(a, b, e - 1);
    }
  }

  /** Clearing low bytes loses less than one unit of the lowest byte that is kept. */
  lemma {:induction false} ClearLowBounds(n: nat, e: nat)
    ensures ClearLow(n, e) <= n < ClearLow(n, e) + Pow256(e)
    decreases e
  {
    if e > 0 {
      ClearLowBounds(n / 256, e - 1);
      assert ClearLow(n, e) == 256 * ClearLow(n / 256, e - 1);
    }
  }

  lemma {:induction false} ShrAtLeast(n: nat, e: nat, a: nat)
    ensures a <= ShrBytes(n, e) <==> ShlBytes(a, e) <= n
    decreases e
  {
    if e > 0 {
      ShrAtLeast(n / 256, e - 1, a);
    }
  }

  lemma {:induction false} ShrMonotone(a: nat, b: nat, e: nat)
    requires a <= b
    ensures ShrBytes(a, e) <= ShrBytes(b, e)
    decreases e
  {
    if e > 0 {
      ShrMonotone(a / 256, b / 256, e - 1);
    }
  }

  lemma {:induction false} ShlDouble(n: nat, e: nat)
    ensures ShlBytes(2 * n, e) == 2 * ShlBytes(n, e)
  {
    if e > 0 {
      ShlDouble(n, e - 1);
    }
  }

  lemma {:induction false} ShlOfPow(k: nat, e: nat)
    ensures ShlBytes(Pow256(k), e) == Pow256(k + e)
  {
    if e > 0 {
      ShlOfPow(k, e - 1);
    }
  }

  lemma {:induction false} ShlOfZero(e: nat)
    ensures ShlBytes(0, e) == 0
  {
    if e > 0 {
      ShlOfZero(e - 1);
    }
  }

  lemma {:induction false} SmallPowers()
    ensures Pow256(0) == 1 && Pow256(1) == 0x100 && Pow256(2) == 0x1_0000 && Pow256(3) == 0x100_0000
  {
  }

  /** The three leading bytes, chosen so that the leading bit is clear. */
  function Mantissa(n: nat): nat {
    var x := ByteLen(2 * n);
    if x <= 3 then ShlBytes(n, 3 - x) else ShrBytes(n, x - 3)
  }

  lemma {:induction false} MantissaBounds(n: nat)
    requires n > 0
    ensures 0x8000 <= Mantissa(n) < 0x80_0000
  {
    hide ByteLen;
    var x := ByteLen(2 * n);
    ByteLenBounds(2 * n);
    SmallPowers();
    if x <= 3 {
      ShortMantissa(n, x);
    } else {
      ShrAtLeast(n, x - 3, 0x8000);
      ShrAtLeast(n, x - 3, 0x80_0000);
      ShlDouble(0x8000, x - 3);
      ShlDouble(0x80_0000, x - 3);
      ShlOfPow(2, x - 3);
      ShlOfPow(3, x - 3);
    }
  }

  lemma {:induction false} ShortMantissa(n: nat, x: nat)
    requires 0 < x <= 3 && Pow256(x - 1) <= 2 * n < Pow256(x)
    ensures 0x8000 <= ShlBytes(n, 3 - x) < 0x80_0000
  {
    ShlDouble(n, 3 - x);
    ShlOfPow(x - 1, 3 - x);
    ShlOfPow(x, 3 - x);
    ShlMonotone(Pow256(x - 1), 2 * n, 3 - x);
    ShlStrict(2 * n, Pow256(x), 3 - x);
    SmallPowers();
  }

  lemma {:induction false} ShlStrict(a: nat, b: nat, e: nat)
    requires a < b
    ensures ShlBytes(a, e) < ShlBytes(b, e)
  {
    if e > 0 {
      ShlStrict(a, b, e - 1);
    }
  }

  /** The length of the doubled number: one byte more exactly when the leading bit is set. */
  lemma {:induction false} LengthOfDouble(n: nat)
    requires n > 0
    ensures ByteLen(2 * n) == if 2 * n >= Pow256(ByteLen(n)) then ByteLen(n) + 1 else ByteLen(n)
  {
    var e := ByteLen(n);
    ByteLenBounds(n);
    if 2 * n >= Pow256(e) {
      ByteLenUnique(2 * n, e + 1);
    } else {
      ByteLenUnique(2 * n, e);
    }
  }

  lemma {:induction false} LeadingBit(n: nat)
    requires n > 0
    ensures var e := ByteLen(n);
            var m := if e <= 3 then ShlBytes(n, 3 - e) else ShrBytes(n, e - 3);
            m < 0x100_0000 && (m >= 0x80_0000 <==> 2 * n >= Pow256(e))
  {
    var e := ByteLen(n);
    ByteLenBounds(n);
    SmallPowers();
    if e <= 3 {
      ShlDouble(n, 3 - e);
      ShlOfPow(e, 3 - e);
      ShlStrict(n, Pow256(e), 3 - e);
      if 2 * n >= Pow256(e) {
        ShlMonotone(Pow256(e), 2 * n, 3 - e);
      } else {
        ShlStrict(2 * n, Pow256(e), 3 - e);
      }
    } else {
      ShrAtLeast(n, e - 3, 0x80_0000);
      ShrAtLeast(n, e - 3, 0x100_0000);
      ShlDouble(0x80_0000, e - 3);
      ShlOfPow(3, e - 3);
    }
  }

  /** The encoder in one formula. */
  lemma {:induction false} CompactForm(n: nat)
    requires n > 0
    ensures BigToCompact(n) == Pack(ByteLen(2 * n), Mantissa(n))
  {
    hide Pack;
    var e := ByteLen(n);
    LengthOfDouble(n);
    LeadingBit(n);
    hide ByteLen;
    if 2 * n >= Pow256(e) {
      if e <= 2 {
        assert ShlBytes(n, 3 - e) == 256 * ShlBytes(n, 2 - e);
      } else {
        ShrLast(n, e - 3);
        assert e == 3 ==> ShlBytes(n, 0) == n == ShrBytes(n, 0);
      }
    }
  }

  lemma {:induction false} Unpack(x: nat, m: nat)
    requires x <= 255 && m < 0x80_0000
    ensures CompactToBig(Pack(x, m)) == if x <= 3 then ShrBytes(m, 3 - x) else ShlBytes(m, x - 3)
  {
    hide ShrBytes, ShlBytes;
    PackedParts(x, m);
  }

  lemma {:induction false} PackedParts(x: nat, m: nat)
    requires x <= 255 && m < 0x80_0000
    ensures var c := Pack(x, m);
      c / 0x100_0000 == x && c % 0x80_0000 == m && (c / 0x80_0000) % 2 == 0
  {
    var c := Pack(x, m);
    assert c == x * 0x100_0000 + m;
    assert c / 0x80_0000 == 2 * x;
  }

  /** Encoding and decoding clears exactly the bytes that do not fit: the result is never larger, and
      off by less than one part in 2^15. */
  lemma {:induction false} CompactRoundsDown(n: nat)
    requires n > 0 && ByteLen(2 * n) <= 255
    ensures var d := CompactToBig(BigToCompact(n));
            d == ClearLow(n, Dropped(n)) && 0 < d <= n && (d == n || (n - d) * 0x8000 < d)
  {
    var x := ByteLen(2 * n);
    CompactForm(n);
    MantissaBounds(n);
    Unpack(x, Mantissa(n));
    if x <= 3 {
      ShrOfShl(n, 3 - x);
    } else {
      var k := x - 3;
      ClearLowBounds(n, k);
      ShlMonotone(0x8000, Mantissa(n), k);
      ShlPow(0x8000, k);
    }
  }

  lemma {:induction false} MantissaMonotone(a: nat, b: nat)
    requires a <= b && ByteLen(2 * a) == ByteLen(2 * b)
    ensures Mantissa(a) <= Mantissa(b)
  {
    var x := ByteLen(2 * a);
    if x <= 3 {
      ShlMonotone(a, b, 3 - x);
    } else {
      ShrMonotone(a, b, x - 3);
    }
  }

  lemma {:induction false} PackOrder(x: nat, m: nat, y: nat, k: nat)
    requires x <= y <= 255 && m < 0x100_0000 && k < 0x100_0000 && (x == y ==> m <= k)
    ensures Pack(x, m) <= Pack(y, k)
  {
  }

  /** Encoding keeps the order of numbers. */
  lemma {:induction false} EncodingMonotone(a: nat, b: nat)
    requires a <= b && ByteLen(2 * b) <= 255
    ensures BigToCompact(a) <= BigToCompact(b)
  {
    hide Mantissa, Pack, ByteLen;
    if a > 0 {
      ByteLenMonotone(2 * a, 2 * b);
      CompactForm(a);
      CompactForm(b);
      MantissaBounds(a);
      MantissaBounds(b);
      if ByteLen(2 * a) == ByteLen(2 * b) {
        MantissaMonotone(a, b);
      }
      PackOrder(ByteLen(2 * a), Mantissa(a), ByteLen(2 * b), Mantissa(b));
    }
  }

  /** Encoding and then decoding keeps the order of numbers. */
  lemma {:induction false} CompactMonotone(a: nat, b: nat)
    requires a <= b && ByteLen(2 * b) <= 255
    ensures CompactToBig(BigToCompact(a)) <= CompactToBig(BigToCompact(b))
  {
    hide CompactToBig, ByteLen;
    ByteLenMonotone(2 * a, 2 * b);
    if b > 0 {
      CompactRoundsDown(b);
    }
    if a == 0 {
      DecodeZero();
    } else {
      CompactRoundsDown(a);
      var x, y := ByteLen(2 * a), ByteLen(2 * b);
      if y > 3 {
        if x == y {
          MantissaMonotone(a, b);
          ShlMonotone(Mantissa(a), Mantissa(b), x - 3);
        } else {
          AboveShorter(a, b);
        }
      }
    }
  }

  lemma {:induction false} DecodeZero()
    ensures CompactToBig(BigToCompact(0)) == 0
  {
  }

  lemma {:induction false} AboveShorter(a: nat, b: nat)
    requires 0 < a && ByteLen(2 * a) < ByteLen(2 * b) && ByteLen(2 * b) > 3
    ensures a < ClearLow(b, Dropped(b))
  {
    var x, y := ByteLen(2 * a), ByteLen(2 * b);
    ByteLenBounds(2 * a);
    MantissaBounds(b);
    Pow256Monotone(x, y - 1);
    ShlMonotone(0x8000, Mantissa(b), y - 3);
    ShlDouble(0x8000, y - 3);
    SmallPowers();
    ShlOfPow(2, y - 3);
  }

  lemma {:induction false} LengthAtMost(n: nat, x: nat)
    requires n < Pow256(x)
    ensures ByteLen(n) <= x
  {
    ByteLenBounds(n);
    if ByteLen(n) > x {
      Pow256Monotone(x, ByteLen(n) - 1);
    }
  }

  /** A 23-bit mantissa followed by zero bytes loses nothing. */
  lemma {:induction false} ShiftedIsExact(m: nat, k: nat)
    requires 0 < m < 0x80_0000 && k <= 252
    ensures 0 < ShlBytes(m, k) && ByteLen(2 * ShlBytes(m, k)) <= 255
    ensures CompactToBig(BigToCompact(ShlBytes(m, k))) == ShlBytes(m, k)
  {
    hide CompactToBig, BigToCompact, ByteLen;
    var v := ShlBytes(m, k);
    ShlStrict(0, m, k);
    ShlDouble(m, k);
    SmallPowers();
    ShlOfPow(3, k);
    ShlStrict(2 * m, 0x100_0000, k);
    LengthAtMost(2 * v, k + 3);
    CompactRoundsDown(v);
    var j := Dropped(v);
    ShlAdd(m, k - j, j);
    ShrOfShl(ShlBytes(m, k - j), j);
  }

  /** A number that was decoded from a compact form survives encoding and decoding unchanged. */
  lemma {:induction false} CompactStable(c: uint32)
    requires CompactToBig(c) > 0
    ensures ByteLen(2 * CompactToBig(c)) <= 255
    ensures CompactToBig(BigToCompact(CompactToBig(c))) == CompactToBig(c)
  {
    hide BigToCompact, ByteLen;
    var m, x := c % 0x80_0000, c / 0x100_0000;
    if x <= 3 {
      var v := ShrBytes(m, 3 - x);
      ShrAtMost(m, 3 - x);
      ShiftedIsExact(v, 0);
      assert ShlBytes(v, 0) == v;
    } else {
      assert ShlBytes(m, x - 3) > 0;
      if m == 0 {
        ShlOfZero(x - 3);
      }
      ShiftedIsExact(m, x - 3);
    }
  }

  lemma {:induction false} ShrAtMost(n: nat, e: nat)
    ensures ShrBytes(n, e) <= n
    decreases e
  {
    if e > 0 {
      ShrAtMost(n / 256, e - 1);
    }
  }

  lemma {:induction false} ShrExact(n: nat, e: nat)
    ensures var v := ShrBytes(n, e); v * Pow256(e) <= n < (v + 1) * Pow256(e)
  {
    var v := ShrBytes(n, e);
    ShrAtLeast(n, e, v);
    ShrAtLeast(n, e, v + 1);
    ShlPow(v, e);
    ShlPow(v + 1, e);
  }

  /** What a compact form stands for: its low 23 bits, with as many bytes added or dropped as bring the
      length to that in its top byte, and negated if the bit between the two is set. */
  lemma {:induction false} DecodeMeans(c: uint32)
    ensures var m, x := c % 0x80_0000, c / 0x100_0000;
      var v := if (c / 0x80_0000) % 2 == 1 then -CompactToBig(c) else CompactToBig(c);
      if x >= 3 then v == m * Pow256(x - 3) else v * Pow256(3 - x) <= m < (v + 1) * Pow256(3 - x)
  {
    hide Pow256;
    var m, x := c % 0x80_0000, c / 0x100_0000;
    if x <= 3 {
      ShrExact(m, 3 - x);
      assert Pow256(0) == 1 by {
        SmallPowers();
      }
    } else {
      ShlPow(m, x - 3);
    }
  }

  // ----- Work -----

  function Quotient(a: nat, b: nat): (q: nat)
    requires b > 0
    ensures b <= a ==> q > 0
  {
    a / b
  }

  /** The expected number of hashes for a target: 2^256 / (target + 1), and none for a target that
      nothing can meet. */
  function CalcWork(bits: uint32): nat {
    var target := CompactToBig(bits);
    if target <= 0 then 0 else Quotient(Pow2(256), target + 1)
  }

  /** The range check on a claimed target. */
  predicate TargetInRange(bits: uint32, powLimit: nat) {
    0 < CompactToBig(bits) <= powLimit
  }

  /** The work for a target is the whole number of times that a hash of 256 bits and one more than the
      target go into each other; nothing can meet a target that is not positive. */
  lemma {:induction false} WorkMeans(bits: uint32)
    ensures var t, w := CompactToBig(bits), CalcWork(bits);
      if t <= 0 then w == 0 else w * (t + 1) <= Pow2(256) < (w + 1) * (t + 1)
  {
    hide CompactToBig, Pow2;
    var t := CompactToBig(bits);
    if t > 0 {
      DivBounds(Pow2(256), t + 1);
    }
  }

  /** A smaller target is at least as much work. */
  lemma {:induction false} HarderIsMoreWork(a: uint32, b: uint32)
    requires 0 < CompactToBig(a) <= CompactToBig(b)
    ensures CalcWork(a) >= CalcWork(b)
  {
    WorkMeans(a);
    WorkMeans(b);
    hide CompactToBig, Pow2, CalcWork;
    var s, t := CompactToBig(a) + 1, CompactToBig(b) + 1;
    if CalcWork(a) < CalcWork(b) {
      MulMonotone(s, CalcWork(a) + 1, CalcWork(b));
      MulMonotone(CalcWork(b), s, t);
    }
  }

  /** A block whose target passed the check adds work. */
  lemma {:induction false} WorkIsPositive(bits: uint32, powLimit: nat)
    requires powLimit < Pow2(256) && TargetInRange(bits, powLimit)
    ensures CalcWork(bits) > 0
  {
  }
}
