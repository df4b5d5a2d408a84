/** 32-bit integer operators of sume32, as section 4.3.2 of the WebAssembly Core Specification 1.0 defines them
    on the unsigned representatives 0..2^32-1. None is a trap. */
module Integers {
  import opened Words
  import opened Sume

  function Signed(a: word): int {
    if a < TWO31 then a else a - TWO32
  }

  function Wrap(x: int): word {
    x % TWO32
  }

  function Pow2(k: nat): (r: nat)
    ensures r > 0
  {
    if k == 0 then 1 else 2 * Pow2(k - 1)
  }

  /** Division rounding toward zero. */
  function Quot(a: int, b: int): int
    requires b != 0
  {
    if a >= 0 then (if b > 0 then a / b else -(a / (-b)))
    else if b > 0 then -((-a) / b) else (-a) / (-b)
  }

  function Rem(a: int, b: int): int
    requires b != 0
  {
    a - b * Quot(a, b)
  }

  /** One bit of and, or, xor. */
  function Bit(op: byte, x: int, y: int): int {
    if op == I_AND then (if x == 1 && y == 1 then 1 else 0)
    else if op == I_OR then (if x == 1 || y == 1 then 1 else 0)
    else if x == y then 0 else 1
  }

  /** and, or, xor of the low n bits. */
  function Bits(op: byte, n: nat, a: int, b: int): (r: int)
    ensures 0 <= r < Pow2(n)
  {
    if n == 0 then 0 else Bit(op, a % 2, b % 2) + 2 * Bits(op, n - 1, a / 2, b / 2)
  }

  lemma Pow2Of32()
    ensures Pow2(32) == TWO32
  {
    assert Pow2(8) == 256;
    assert Pow2(16) == 65536;
    assert Pow2(24) == 16777216;
  }

  function Bitwise(op: byte, a: word, b: word): word {
    Pow2Of32();
    Bits(op, 32, a, b)
  }

  function RotateLeft(a: word, k: nat): word
    requires k < 32
  {
    Wrap(a * Pow2(k) + a / Pow2(32 - k))
  }

  /** The binary operators; k is the shift count modulo 32. */
  function BinaryOp(op: byte, a: word, b: word): Option<word>
    requires IsBinary(op)
  {
    var k := b % 32;
    if op == I_ADD then Some(Wrap(a + b))
    else if op == I_SUB then Some(Wrap(a - b))
    else if op == I_MUL then Some(Wrap(a * b))
    else if op == I_AND || op == I_OR || op == I_XOR then Some(Bitwise(op, a, b))
    else if op == I_DIV_U then (if b == 0 then None else Some(Wrap(a / b)))
    else if op == I_REM_U then (if b == 0 then None else Some(Wrap(a % b)))
    else if op == I_DIV_S then
      if b == 0 || (a == TWO31 && b == TWO32 - 1) then None else Some(Wrap(Quot(Signed(a), Signed(b))))
    else if op == I_REM_S then (if b == 0 then None else Some(Wrap(Rem(Signed(a), Signed(b)))))
    else if op == I_SHL then Some(Wrap(a * Pow2(k)))
    else if op == I_SHR_U then Some(Wrap(a / Pow2(k)))
    else if op == I_SHR_S then Some(Wrap(Signed(a) / Pow2(k)))
    else if op == I_ROTL then Some(RotateLeft(a, k))
    else Some(RotateLeft(a, (32 - k) % 32))
  }

  predicate CompareOp(op: byte, a: word, b: word)
    requires IsCompare(op)
  {
    if op == I_EQ then a == b
    else if op == I_NE then a != b
    else if op == I_GE_S then Signed(a) >= Signed(b)
    else if op == I_GE_U then a >= b
    else if op == I_GT_S then Signed(a) > Signed(b)
    else if op == I_GT_U then a > b
    else if op == I_LE_S then Signed(a) <= Signed(b)
    else if op == I_LE_U then a <= b
    else if op == I_LT_S then Signed(a) < Signed(b)
    else a < b
  }

  /** Leading zeros, trailing zeros and ones among the low n bits. */
  function Lead(n: nat, a: int): nat {
    if n == 0 || a / Pow2(n - 1) % 2 == 1 then 0 else 1 + Lead(n - 1, a)
  }

  function Trail(n: nat, a: int): nat {
    if n == 0 || a % 2 == 1 then 0 else 1 + Trail(n - 1, a / 2)
  }

  function Ones(n: nat, a: int): nat {
    if n == 0 then 0 else a % 2 + Ones(n - 1, a / 2)
  }

  function UnaryOp(op: byte, a: word): word
    requires IsUnary(op)
  {
    Wrap(if op == I_CLZ then Lead(32, a) else if op == I_CTZ then Trail(32, a) else Ones(32, a))
  }
}
