/**
 What the interpreter's arithmetic on 32-bit words means, in the terms in which chapter 6
 of the Java Virtual Machine Specification, 2nd edition, defines the instructions.
 */
module WordArithmetic {
  import opened JavaFrame
  import opened Products

  const MODULUS := 0x1_0000_0000
  const MIN_WORD: Word := -0x8000_0000

  const IDIV: Byte := 0x6c
  const IREM: Byte := 0x70
  const ISHL: Byte := 0x78
  const ISHR: Byte := 0x7a
  const IUSHR: Byte := 0x7c

  /** A result that does not fit is the one word with the same low-order bits. */
  lemma WrapExact(x: int, y: Word)
    ensures Wrap(x) == y <==> (x - y) % MODULUS == 0
  {
  }

  lemma WrapFits(x: Word)
    ensures Wrap(x) == x
  {
  }

  predicate Fits(x: int) {
    -0x8000_0000 <= x < 0x8000_0000
  }

  /** A remainder of division by `b`, of the sign of the dividend `a`. */
  predicate IsRemainder(r: int, a: int, b: int) {
    (if b > 0 then 0 - b < r < b else b < r < 0 - b) && (a >= 0 ==> r >= 0) && (a <= 0 ==> r <= 0)
  }

  lemma QuotientTruncates(a: int, b: int)
    requires b != 0
    ensures IsRemainder(a - b * Quotient(a, b), a, b)
  {
  }

  lemma QuotientFits(a: Word, b: Word)
    requires b != 0 && !(a == MIN_WORD && b == -1)
    ensures Fits(Quotient(a, b))
  {
  }

  /** Division rounds toward zero and the remainder has the sign of the dividend; only the
      quotient of the least word by -1 does not fit, and is the least word again. */
  lemma DivisionExact(a: Word, b: Word)
    requires b != 0
    ensures var q, r := Arithmetic2(IDIV, a, b), Arithmetic2(IREM, a, b);
            if a == MIN_WORD && b == -1 then q == MIN_WORD && r == 0
            else
              a == b * q + r && IsRemainder(r, a, b)
  {
    if a == MIN_WORD && b == -1 {
      assert Quotient(a, b) == 0x8000_0000;
    } else {
      QuotientFits(a, b);
      QuotientTruncates(a, b);
      WrapFits(Quotient(a, b));
    }
  }

  lemma {:induction false} PowersMultiply(m: nat, n: nat)
    ensures Power2(m) * Power2(n) == Power2(m + n)
  {
    if m > 0 {
      PowersMultiply(m - 1, n);
      assert 2 * Power2(m - 1) * Power2(n) == 2 * (Power2(m - 1) * Power2(n));
    }
  }

  lemma FloorOfSum(a: int, k: int, p: nat)
    requires p > 0
    ensures (a + k * p) / p == a / p + k
  {
    Divide(a, p);
    Sum(a / p, k, p);
    QuotientIs(a + k * p, p, a / p + k);
  }

  /** Shifts by the low five bits of the second operand: multiplication, division rounding
      down, and division with zeros shifted in, which adds the bits a negative word has lost. */
  lemma ShiftsExact(a: Word, b: Word)
    ensures var n := b % 32; var p := Power2(n);
            && (Arithmetic2(ISHL, a, b) - a * p) % MODULUS == 0
            && Arithmetic2(ISHR, a, b) * p <= a < Arithmetic2(ISHR, a, b) * p + p
            && Arithmetic2(IUSHR, a, b) == Arithmetic2(ISHR, a, b) + if a < 0 && n > 0 then Power2(32 - n) else 0
  {
    ShiftLeft(a, b);
    ShiftRight(a, b);
    ShiftUnsigned(a, b);
    Divide(a, Power2(b % 32));
    hide Power2;
  }

  lemma ShiftRight(a: Word, b: Word)
    ensures Arithmetic2(ISHR, a, b) == a / Power2(b % 32)
  {
    FloorFits(a, Power2(b % 32));
    hide Power2;
    WrapFits(a / Power2(b % 32));
  }

  lemma ShiftUnsigned(a: Word, b: Word)
    ensures Arithmetic2(IUSHR, a, b) == a / Power2(b % 32) + if a < 0 && b % 32 > 0 then Power2(32 - b % 32) else 0
  {
    var n, p := b % 32, Power2(b % 32);
    FloorFits(a, p);
    WrapFits(a / p);
    if a < 0 && n > 0 {
      PowersMultiply(32 - n, n);
      Power32();
      FloorOfSum(a, Power2(32 - n), p);
      HalfFits(a, n);
      WrapFits(a / p + Power2(32 - n));
    } else if n == 0 {
      WrapExact(Unsigned(a), a);
    }
  }

  lemma ShiftLeft(a: Word, b: Word)
    ensures (Arithmetic2(ISHL, a, b) - a * Power2(b % 32)) % MODULUS == 0
  {
  }

  lemma FloorFits(a: Word, p: nat)
    requires p > 0
    ensures Fits(a / p)
  {
  }

  lemma HalfFits(a: Word, n: nat)
    requires a < 0 < n < 32
    ensures Fits(a / Power2(n) + Power2(32 - n))
  {
    FloorFits(a, Power2(n));
    PowersMultiply(1, 31 - n);
    PowersGrow(32 - n, 31);
    Power32();
    FloorNegative(a, Power2(n));
  }

  lemma FloorNegative(a: int, p: nat)
    requires a < 0 < p
    ensures a / p < 0
  {
  }

  lemma {:induction false} PowersGrow(m: nat, n: nat)
    requires m <= n
    ensures Power2(m) <= Power2(n)
  {
    if m < n { PowersGrow(m, n - 1); }
  }

  lemma Power32()
    ensures Power2(31) == 0x8000_0000 && Power2(32) == MODULUS
  {
    Power8();
    PowersMultiply(8, 8);
    PowersMultiply(8, 7);
    PowersMultiply(16, 16);
    PowersMultiply(16, 15);
  }

  lemma Power8()
    ensures Power2(7) == 0x80 && Power2(8) == 0x100
  {
  }

  /** Conversions keep the low-order bits, and give the only number in range that does. */
  lemma ConvertExact(a: Word, y: int)
    ensures -0x80 <= y < 0x80 ==> (Convert(0x91, a) == y <==> (a - y) % 0x100 == 0)
    ensures 0 <= y < 0x1_0000 ==> (Convert(0x92, a) == y <==> (a - y) % 0x1_0000 == 0)
    ensures -0x8000 <= y < 0x8000 ==> (Convert(0x93, a) == y <==> (a - y) % 0x1_0000 == 0)
    ensures (Convert(0x74, a) + a) % MODULUS == 0
  {
    OnlyRemainder(a, 0x80, 0x100, y);
    OnlyRemainder(a, 0, 0x1_0000, y);
    OnlyRemainder(a, 0x8000, 0x1_0000, y);
    OnlyRemainder(0 - a, 0x8000_0000, MODULUS, Wrap(0 - a));
    hide Wrap;
    Opposite(a, Wrap(0 - a), MODULUS);
  }

  /** Of `m` numbers from `-h` on, one is congruent to `a` modulo `m`. */
  lemma OnlyRemainder(a: int, h: int, m: nat, y: int)
    requires m > 0
    ensures -h <= y < m - h ==> ((a + h) % m - h == y <==> (a - y) % m == 0)
  {
    var r, q := (a + h) % m, (a + h) / m;
    Divide(a + h, m);
    if -h <= y < m - h {
      var d := a - y;
      Divide(d, m);
      if r - h == y { MultipleRemainder(q, m); }
      if d % m == 0 { QuotientIs(a + h, m, d / m); }
    }
  }

  lemma Opposite(a: int, y: int, m: nat)
    requires m > 0 && (-a - y) % m == 0
    ensures (y + a) % m == 0
  {
    var q := (-a - y) / m;
    Divide(-a - y, m);
    assert -q * m == -(q * m);
    MultipleRemainder(-q, m);
  }

  // ---------------------------------------------------------------------------
  // Bits

  /** Bit `k` of a number in two's complement. */
  function Bit(x: int, k: nat): int {
    x / Power2(k) % 2
  }

  lemma HalfFirst(x: int, p: nat)
    requires p > 0
    ensures x / (2 * p) == x / 2 / p
  {
    var h := x / 2;
    Divide(h, p);
    var q := h / p;
    assert q * (2 * p) == 2 * (q * p);
    QuotientIs(x, 2 * p, q);
  }

  lemma NextBit(x: int, k: nat)
    ensures Bit(x, k + 1) == Bit(x / 2, k)
  {
    HalfFirst(x, Power2(k));
  }

  lemma {:induction false} LowBitsAt(op: Byte, a: int, b: int, n: nat, k: nat)
    requires k < n
    ensures Bit(LowBits(op, a, b, n), k) == BitOf(op, Bit(a, k), Bit(b, k))
    decreases k
  {
    if k > 0 {
      LowBitsAt(op, a / 2, b / 2, n - 1, k - 1);
      var r := LowBits(op, a / 2, b / 2, n - 1);
      assert LowBits(op, a, b, n) / 2 == r;
      NextBit(LowBits(op, a, b, n), k - 1);
      NextBit(a, k - 1);
      NextBit(b, k - 1);
      hide Bit, LowBits, BitOf;
    }
  }

  lemma EvenMultiple(x: int, g: int, p: nat)
    requires p > 0 && g % 2 == 0
    ensures (x - g * p) / p % 2 == x / p % 2
  {
    FloorOfSum(x, 0 - g, p);
    assert (0 - g) * p == 0 - g * p;
  }

  /** Wrapping around keeps the low-order bits. */
  lemma WrappedBit(x: nat, k: nat)
    requires x < MODULUS && k < 32
    ensures Bit(Wrap(x), k) == Bit(x, k)
  {
    var g := Power2(32 - k);
    assert g % 2 == 0;
    PowersMultiply(32 - k, k);
    Power32();
    hide Power2;
    EvenMultiple(x, g, Power2(k));
    assert Wrap(x) == if x < 0x8000_0000 then x else x - MODULUS;
    hide Wrap;
  }

  lemma {:induction false} LowBitsBound(op: Byte, a: int, b: int, n: nat)
    ensures LowBits(op, a, b, n) < Power2(n)
    decreases n
  {
    if n > 0 { LowBitsBound(op, a / 2, b / 2, n - 1); }
  }

  /** iand, ior and ixor combine the words bit by bit. */
  lemma BitsExact(a: Word, b: Word, k: nat)
    requires k < 32
    ensures Bit(Bits(0x7e, a, b), k) == 1 <==> Bit(a, k) == 1 && Bit(b, k) == 1
    ensures Bit(Bits(0x80, a, b), k) == 1 <==> Bit(a, k) == 1 || Bit(b, k) == 1
    ensures Bit(Bits(0x82, a, b), k) == 1 <==> Bit(a, k) != Bit(b, k)
  {
    Power32();
    BitsAt(0x7e, a, b, k);
    BitsAt(0x80, a, b, k);
    BitsAt(0x82, a, b, k);
    hide Bits, Power2;
  }

  lemma BitsAt(op: Byte, a: Word, b: Word, k: nat)
    requires k < 32
    ensures Bit(Bits(op, a, b), k) == BitOf(op, Bit(a, k), Bit(b, k))
  {
    hide Bit, LowBits;
    Power32();
    LowBitsBound(op, a, b, 32);
    WrappedBit(LowBits(op, a, b, 32), k);
    LowBitsAt(op, a, b, 32, k);
  }

  /** A word is determined by its 32 bits. */
  lemma {:induction false} SameBits(x: int, y: int, n: nat)
    requires 0 - Power2(n) <= x < Power2(n) && 0 - Power2(n) <= y < Power2(n)
    requires forall k: nat :: k <= n ==> Bit(x, k) == Bit(y, k)
    ensures x == y
    decreases n
  {
    assert Bit(x, 0) == x % 2 && Bit(y, 0) == y % 2;
    if n == 0 {
    } else {
      forall k: nat | k <= n - 1
        ensures Bit(x / 2, k) == Bit(y / 2, k)
      {
        NextBit(x, k);
        NextBit(y, k);
        assert Bit(x, k + 1) == Bit(y, k + 1);
      }
      SameBits(x / 2, y / 2, n - 1);
    }
  }
}
