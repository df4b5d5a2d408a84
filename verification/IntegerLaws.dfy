/** What the integer operators compute, bit by bit and by the laws of division, whichever way they are defined. The
    stack machine and the processor share the definitions, so that these say what both mean. */
module IntegerLaws {
  import opened Words
  import opened Sume
  import opened Integers

  /** Bit k of a number. */
  function BitOf(a: int, k: nat): int {
    a / Pow2(k) % 2
  }

  // ---------- powers of two ----------

  lemma MulMono(x: int, y: int, p: nat)
    requires x <= y
    ensures x * p <= y * p
  {
    MulNat(y - x, p);
    assert (y - x) * p == y * p - x * p;
  }

  lemma MulNat(x: nat, p: nat)
    ensures x * p >= 0
  {
  }

  lemma Division(a: int, n: nat)
    requires n > 0
    ensures a == (a / n) * n + a % n && 0 <= a % n < n
  {
  }

  lemma DivIs(a: int, n: nat, q: int, r: int)
    requires n > 0 && a == q * n + r && 0 <= r < n
    ensures a / n == q && a % n == r
  {
    Division(a, n);
    if a / n > q { MulMono(q + 1, a / n, n); } else if a / n < q { MulMono(a / n + 1, q, n); }
  }

  lemma DivTwice(a: int, m: nat)
    requires m > 0
    ensures a / (2 * m) == a / 2 / m
  {
    var q, r := a / 2 / m, a / 2 % m;
    Division(a, 2);
    Division(a / 2, m);
    assert q * (2 * m) == 2 * (q * m);
    DivIs(a, 2 * m, q, 2 * r + a % 2);
  }

  lemma BitShift(a: int, k: nat)
    requires k > 0
    ensures BitOf(a, k) == BitOf(a / 2, k - 1)
  {
    DivTwice(a, Pow2(k - 1));
  }

  lemma BitLow(a: int)
    ensures BitOf(a, 0) == a % 2
  {
  }

  lemma {:induction false} Pow2Sum(j: nat, k: nat)
    ensures Pow2(j + k) == Pow2(j) * Pow2(k)
  {
    if j > 0 { Pow2Sum(j - 1, k); }
  }

  /** A number is its bits. */
  lemma {:induction false} SameBits(n: nat, a: nat, b: nat)
    requires a < Pow2(n) && b < Pow2(n) && forall k | 0 <= k < n :: BitOf(a, k) == BitOf(b, k)
    ensures a == b
  {
    if n > 0 {
      assert BitOf(a, 0) == BitOf(b, 0);
      forall k | 0 <= k < n - 1 ensures BitOf(a / 2, k) == BitOf(b / 2, k) {
        BitShift(a, k + 1);
        BitShift(b, k + 1);
        assert BitOf(a, k + 1) == BitOf(b, k + 1);
      }
      SameBits(n - 1, a / 2, b / 2);
    }
  }

  // ---------- and, or, xor ----------

  lemma {:induction false} BitsAt(op: byte, n: nat, a: int, b: int, k: nat)
    requires k < n
    ensures BitOf(Bits(op, n, a, b), k) == Bit(op, BitOf(a, k), BitOf(b, k))
  {
    var r, x, y := Bits(op, n, a, b), Bit(op, a % 2, b % 2), Bits(op, n - 1, a / 2, b / 2);
    assert r == 2 * y + x;
    DivIs(r, 2, y, x);
    if k == 0 {
      BitLow(r);
      BitLow(a);
      BitLow(b);
    } else {
      BitShift(r, k);
      BitShift(a, k);
      BitShift(b, k);
      BitsAt(op, n - 1, a / 2, b / 2, k - 1);
    }
  }

  /** A bit of the result is set exactly if both, at least one, exactly one of the operands' bits is. */
  lemma BitwiseAt(a: word, b: word, k: nat)
    requires k < 32
    ensures BitOf(BinaryOp(I_AND, a, b).value, k) == 1 <==> BitOf(a, k) == 1 && BitOf(b, k) == 1
    ensures BitOf(BinaryOp(I_OR, a, b).value, k) == 1 <==> BitOf(a, k) == 1 || BitOf(b, k) == 1
    ensures BitOf(BinaryOp(I_XOR, a, b).value, k) == 1 <==> (BitOf(a, k) == 1) != (BitOf(b, k) == 1)
  {
    BitsAt(I_AND, 32, a, b, k);
    BitsAt(I_OR, 32, a, b, k);
    BitsAt(I_XOR, 32, a, b, k);
  }

  lemma {:induction false} BitsSum(n: nat, a: nat, b: nat)
    requires a < Pow2(n) && b < Pow2(n)
    ensures a + b == Bits(I_OR, n, a, b) + Bits(I_AND, n, a, b)
    ensures Bits(I_XOR, n, a, b) == Bits(I_OR, n, a, b) - Bits(I_AND, n, a, b)
  {
    if n > 0 { BitsSum(n - 1, a / 2, b / 2); }
  }

  /** Adding carries exactly where both bits are set. */
  lemma BitwiseSum(a: word, b: word)
    ensures a + b == BinaryOp(I_OR, a, b).value + BinaryOp(I_AND, a, b).value
    ensures BinaryOp(I_XOR, a, b).value == BinaryOp(I_OR, a, b).value - BinaryOp(I_AND, a, b).value
  {
    Pow2Of32();
    BitsSum(32, a, b);
  }

  // ---------- shifts and rotations ----------

  /** The bits of two numbers put together. */
  lemma {:induction false} JoinedBits(h: nat, l: nat, m: nat, x: nat, j: nat)
    requires x == h * Pow2(m) + l && l < Pow2(m)
    ensures BitOf(x, j) == if j < m then BitOf(l, j) else BitOf(h, j - m)
  {
    if m > 0 {
      var p := Pow2(m - 1);
      assert h * Pow2(m) == 2 * (h * p);
      assert x == 2 * (h * p + l / 2) + l % 2;
      DivIs(x, 2, h * p + l / 2, l % 2);
      if j == 0 {
        BitLow(x);
        BitLow(l);
      } else {
        BitShift(x, j);
        BitShift(l, j);
        JoinedBits(h, l / 2, m - 1, x / 2, j - 1);
      }
    }
  }

  lemma Split32(k: nat)
    requires k <= 32
    ensures Pow2(k) * Pow2(32 - k) == TWO32
  {
    Pow2Of32();
    Pow2Sum(k, 32 - k);
  }

  lemma DivBelow(a: nat, q: nat, p: nat)
    requires p > 0 && a < q * p
    ensures a / p < q
  {
    Division(a, p);
    if a / p >= q { MulMono(q, a / p, p); }
  }

  /** A word as its high k bits and the rest. */
  lemma HighLow(a: word, p: nat, q: nat, h: nat, l: nat)
    requires p > 0 && q > 0 && p * q == TWO32 && h == a / q && l == a % q
    ensures a == h * q + l && l < q && h < p
  {
    Division(a, q);
    DivBelow(a, p, q);
  }

  /** What a word times p is modulo 2^32. */
  lemma ShiftedIs(a: word, p: nat, q: nat, h: nat, l: nat)
    requires p > 0 && q > 0 && p * q == TWO32 && h == a / q && l == a % q
    ensures Wrap(a * p) == l * p && l * p + p <= TWO32 && a * p == h * TWO32 + l * p
  {
    HighLow(a, p, q, h, l);
    calc {
      a * p;
      (h * q + l) * p;
      h * (q * p) + l * p;
      h * TWO32 + l * p;
    }
    MulMono(l + 1, q, p);
    assert (l + 1) * p == l * p + p && q * p == TWO32;
    MulNat(l, p);
    DivIs(a * p, TWO32, h, l * p);
  }

  lemma RotatedIs(a: word, k: nat, h: nat, l: nat)
    requires k < 32 && h == a / Pow2(32 - k) && l == a % Pow2(32 - k)
    ensures RotateLeft(a, k) == l * Pow2(k) + h && h < Pow2(k)
  {
    Split32(k);
    var p, q := Pow2(k), Pow2(32 - k);
    HighLow(a, p, q, h, l);
    ShiftedIs(a, p, q, h, l);
    MulNat(l, p);
    DivIs(a * p + h, TWO32, h, l * p + h);
  }

  lemma WordBit(a: word, k: nat, h: nat, l: nat, i: nat)
    requires k < 32 && i < 32 && h == a / Pow2(32 - k) && l == a % Pow2(32 - k)
    ensures BitOf(a, i) == if i < 32 - k then BitOf(l, i) else BitOf(h, i - (32 - k))
  {
    Split32(k);
    HighLow(a, Pow2(k), Pow2(32 - k), h, l);
    JoinedBits(h, l, 32 - k, a, i);
  }

  /** Rotating by k moves bit i to bit i + k, around the end. */
  lemma RotatedBit(a: word, k: nat, i: nat)
    requires k < 32 && i < 32
    ensures BitOf(RotateLeft(a, k), (i + k) % 32) == BitOf(a, i)
  {
    var h, l := a / Pow2(32 - k), a % Pow2(32 - k);
    Division(a, Pow2(32 - k));
    DivNat(a, Pow2(32 - k));
    WordBit(a, k, h, l, i);
    RotatedIs(a, k, h, l);
    var j := if i + k < 32 then i + k else i + k - 32;
    DivIs(i + k, 32, if i + k < 32 then 0 else 1, j);
    JoinedBits(l, h, k, RotateLeft(a, k), j);
  }

  lemma AddMod(i: nat, b: nat)
    ensures (i + b % 32) % 32 == (i + b) % 32
  {
    Division(b, 32);
    Division(i + b % 32, 32);
    DivIs(i + b, 32, b / 32 + (i + b % 32) / 32, (i + b % 32) % 32);
  }

  /** rotl by b. */
  lemma RotlBit(a: word, b: word, i: nat)
    requires i < 32
    ensures BitOf(BinaryOp(I_ROTL, a, b).value, (i + b) % 32) == BitOf(a, i)
  {
    RotatedBit(a, b % 32, i);
    AddMod(i, b);
  }

  /** rotl and rotr by the same count undo each other. */
  lemma RotationsUndo(a: word, b: word)
    ensures BinaryOp(I_ROTR, BinaryOp(I_ROTL, a, b).value, b) == Some(a)
    ensures BinaryOp(I_ROTL, BinaryOp(I_ROTR, a, b).value, b) == Some(a)
  {
    var k := b % 32;
    RotatedBack(a, k, (32 - k) % 32);
    RotatedBack(a, (32 - k) % 32, k);
  }

  lemma AroundTwice(i: nat, k: nat, j: nat)
    requires i < 32 && k < 32 && j < 32 && (k + j == 0 || k + j == 32)
    ensures ((i + k) % 32 + j) % 32 == i
  {
  }

  lemma BackBit(a: word, k: nat, j: nat, i: nat)
    requires i < 32 && k < 32 && j < 32 && (k + j == 0 || k + j == 32)
    ensures BitOf(RotateLeft(RotateLeft(a, k), j), i) == BitOf(a, i)
  {
    RotatedBit(a, k, i);
    RotatedBit(RotateLeft(a, k), j, (i + k) % 32);
    AroundTwice(i, k, j);
  }

  lemma RotatedBack(a: word, k: nat, j: nat)
    requires k < 32 && j < 32 && (k + j == 0 || k + j == 32)
    ensures RotateLeft(RotateLeft(a, k), j) == a
  {
    var s := RotateLeft(RotateLeft(a, k), j);
    forall i | 0 <= i < 32 ensures BitOf(s, i) == BitOf(a, i) { BackBit(a, k, j, i); }
    Pow2Of32();
    SameBits(32, s, a);
  }

  /** shl moves bit i to bit i + k and fills with zeros. */
  lemma ShiftedLeftBit(a: word, b: word, i: nat)
    requires i < 32
    ensures var k := b % 32;
            BitOf(BinaryOp(I_SHL, a, b).value, i) == if i < k then 0 else BitOf(a, i - k)
  {
    var k := b % 32;
    var p, q := Pow2(k), Pow2(32 - k);
    var h, l := a / q, a % q;
    DivNat(a, q);
    Split32(k);
    ShiftedIs(a, p, q, h, l);
    JoinedBits(l, 0, k, l * p, i);
    ZeroBits(i);
    if i >= k { WordBit(a, k, h, l, i - k); }
  }

  lemma ZeroBits(i: nat)
    ensures BitOf(0, i) == 0
  {
    DivIs(0, Pow2(i), 0, 0);
  }

  /** shr_u moves bit i + k to bit i and fills with zeros. */
  lemma ShiftedRightBit(a: word, b: word, i: nat)
    requires i < 32
    ensures var k := b % 32;
            BitOf(BinaryOp(I_SHR_U, a, b).value, i) == if i + k < 32 then BitOf(a, i + k) else 0
  {
    var k := b % 32;
    var h, l := a / Pow2(k), a % Pow2(k);
    DivNat(a, Pow2(k));
    Division(a, Pow2(k));
    WrapWord(h);
    JoinedBits(h, l, k, a, i + k);
    if i + k >= 32 { HighBit(a, i + k); }
  }

  lemma WrapWord(h: int)
    requires 0 <= h < TWO32
    ensures Wrap(h) == h
  {
  }

  lemma DivNat(a: nat, m: nat)
    requires m > 0
    ensures 0 <= a / m <= a
  {
    Division(a, m);
    if a / m < 0 { MulMono(a / m + 1, 0, m); }
    if a / m > a { MulMono(1, m, a / m); }
  }

  /** A word has no bits from 32 on. */
  lemma HighBit(a: word, i: nat)
    requires i >= 32
    ensures BitOf(a, i) == 0
  {
    Pow2Of32();
    Pow2Sum(i - 32, 32);
    MulMono(1, Pow2(i - 32), TWO32);
    DivIs(a, Pow2(i), 0, a);
  }

  /** shr_s: the result is the signed number divided by 2^k, rounded down. */
  lemma ShiftedSigned(a: word, b: word)
    ensures var r, p := Signed(BinaryOp(I_SHR_S, a, b).value), Pow2(b % 32);
            r * p <= Signed(a) < r * p + p
  {
    var p, s := Pow2(b % 32), Signed(a);
    var q := s / p;
    Division(s, p);
    SignedDiv(s, p, q);
    SignedOfWrap(q);
  }

  lemma SignedDiv(s: int, p: nat, q: int)
    requires p > 0 && -TWO31 <= s < TWO31 && q * p <= s < q * p + p
    ensures -TWO31 <= q < TWO31
  {
    if q >= TWO31 { MulMono(TWO31, q, p); }
    if q < -TWO31 { MulMono(q + 1, -TWO31, p); }
  }

  // ---------- signed numbers and division ----------

  /** Signed is the representative between -2^31 and 2^31. */
  lemma SignedIs(a: word)
    ensures -TWO31 <= Signed(a) < TWO31 && Wrap(Signed(a)) == a
  {
  }

  lemma SignedOfWrap(x: int)
    requires -TWO31 <= x < TWO31
    ensures Signed(Wrap(x)) == x
  {
    if x < 0 { DivIs(x, TWO32, -1, x + TWO32); }
  }

  /** The quotient is rounded toward zero: the remainder is smaller than the divisor and has the dividend's sign. */
  lemma QuotientRounds(a: int, b: int)
    requires b != 0
    ensures a == b * Quot(a, b) + Rem(a, b)
    ensures Magnitude(Rem(a, b)) < Magnitude(b)
    ensures Rem(a, b) == 0 || (Rem(a, b) > 0 <==> a > 0)
  {
    RemainderIs(a, b, Magnitude(a), Magnitude(b));
  }

  lemma RemainderIs(a: int, b: int, m: nat, n: nat)
    requires b != 0 && m == Magnitude(a) && n == Magnitude(b)
    ensures 0 <= m % n < n && Rem(a, b) == if a >= 0 then m % n else 0 - m % n
  {
    var y := (m / n) * n;
    Division(m, n);
    QuotientIs(a, b, m / n, n, y);
  }

  lemma QuotientIs(a: int, b: int, q: int, n: nat, y: int)
    requires b != 0 && n == Magnitude(b) && q == Magnitude(a) / n && y == q * n
    ensures b * Quot(a, b) == if a >= 0 then y else 0 - y
  {
  }

  function Magnitude(x: int): nat {
    if x < 0 then -x else x
  }

  // ---------- counting bits ----------

  /** ctz: the bits below are clear, and the bit there is set unless there is none. */
  lemma {:induction false} TrailIs(n: nat, a: nat, k: nat)
    ensures Trail(n, a) <= n && (k < Trail(n, a) ==> BitOf(a, k) == 0)
    ensures Trail(n, a) < n ==> BitOf(a, Trail(n, a)) == 1
  {
    if n > 0 && a % 2 != 1 {
      TrailIs(n - 1, a / 2, if k > 0 then k - 1 else 0);
      BitLow(a);
      if k > 0 { BitShift(a, k); }
      BitShift(a, Trail(n, a));
    } else if n > 0 {
      BitLow(a);
    }
  }

  /** clz: the bits above are clear, and the bit below them is set unless there is none. */
  lemma {:induction false} LeadIs(n: nat, a: nat, k: nat)
    ensures Lead(n, a) <= n && (n - Lead(n, a) <= k < n ==> BitOf(a, k) == 0)
    ensures Lead(n, a) < n ==> BitOf(a, n - 1 - Lead(n, a)) == 1
  {
    if n > 0 { LeadIs(n - 1, a, k); }
  }

  /** The set bits below n, counted from the top. */
  function SetBits(n: nat, a: int): nat {
    if n == 0 then 0 else SetBits(n - 1, a) + BitOf(a, n - 1)
  }

  lemma {:induction false} SetBitsLow(n: nat, a: int)
    requires n > 0
    ensures SetBits(n, a) == a % 2 + SetBits(n - 1, a / 2)
  {
    if n == 1 {
      BitLow(a);
    } else {
      SetBitsLow(n - 1, a);
      BitShift(a, n - 1);
    }
  }

  /** popcnt counts the set bits. */
  lemma {:induction false} OnesIs(n: nat, a: int)
    ensures Ones(n, a) == SetBits(n, a)
  {
    if n > 0 {
      OnesIs(n - 1, a / 2);
      SetBitsLow(n, a);
    }
  }
}
