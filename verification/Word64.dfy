/** 64-bit two's complement words and the integer operations of the IR.

    A word is the signed reading of 64 bits. Arithmetic wraps modulo 2^64, division truncates toward
    zero and traps on a zero divisor and on INT64_MIN / -1, shifts use the low six bits of the count
    and a right shift copies the sign. The bitwise operations are defined bit by bit. */
module Word64 {

  datatype Option<+T> = None | Some(value: T)

  const TWO63: int := 0x8000_0000_0000_0000
  const TWO64: int := 0x1_0000_0000_0000_0000

  type Word = x: int | -0x8000_0000_0000_0000 <= x < 0x8000_0000_0000_0000

  datatype BinOp =
    | Add | Sub | Mul | Div | Mod
    | And | Or | Xor | Shl | Shr
    | CmpEq | CmpNe | CmpLt | CmpLe | CmpGt | CmpGe

  /** The word congruent to `x` modulo 2^64. */
  function Wrap(x: int): (w: Word)
    ensures (w - x) % TWO64 == 0
    ensures -TWO63 <= x < TWO63 ==> w == x
  {
    (x + TWO63) % TWO64 - TWO63
  }

  /** The same 64 bits read without a sign. */
  function Unsigned(w: Word): (n: nat)
    ensures n < TWO64 && Wrap(n) == w
  {
    if w < 0 then w + TWO64 else w
  }

  function Pow2(k: nat): (p: nat)
    ensures p >= 1
  {
    if k == 0 then 1 else 2 * Pow2(k - 1)
  }

  datatype BitKind = KAnd | KOr | KXor

  function BitOf(k: BitKind, x: nat, y: nat): nat {
    match k
    case KAnd => if x % 2 == 1 && y % 2 == 1 then 1 else 0
    case KOr => if x % 2 == 1 || y % 2 == 1 then 1 else 0
    case KXor => if x % 2 != y % 2 then 1 else 0
  }

  /** The low `n` bits of the bitwise combination of `x` and `y`. */
  function Bits(k: BitKind, n: nat, x: nat, y: nat): (r: nat)
    ensures r < Pow2(n)
  {
    if n == 0 then 0 else BitOf(k, x, y) + 2 * Bits(k, n - 1, x / 2, y / 2)
  }

  function Bitwise(k: BitKind, a: Word, b: Word): Word {
    Wrap(Bits(k, 64, Unsigned(a), Unsigned(b)))
  }

  function Truth(b: bool): Word {
    if b then 1 else 0
  }

  /** C division: the quotient is truncated toward zero. */
  function TruncDiv(a: int, b: int): int
    requires b != 0
  {
    if a >= 0 then (if b > 0 then a / b else -(a / -b))
    else (if b > 0 then -(-a / b) else -a / -b)
  }

  function TruncMod(a: int, b: int): int
    requires b != 0
  {
    a - b * TruncDiv(a, b)
  }

  function ShiftLeft(a: Word, count: Word): Word {
    Wrap(a * Pow2(count % 64))
  }

  function ShiftRight(a: Word, count: Word): Word {
    Wrap(a / Pow2(count % 64))
  }

  function DivTraps(a: Word, b: Word): bool {
    b == 0 || (a == -TWO63 && b == -1)
  }

  /** What the machine computes for a binary operation; None is a hardware trap. */
  function Alu(op: BinOp, a: Word, b: Word): Option<Word> {
    match op
    case Add => Some(Wrap(a + b))
    case Sub => Some(Wrap(a - b))
    case Mul => Some(Wrap(a * b))
    case Div => if DivTraps(a, b) then None else Some(Wrap(TruncDiv(a, b)))
    case Mod => if DivTraps(a, b) then None else Some(Wrap(TruncMod(a, b)))
    case And => Some(Bitwise(KAnd, a, b))
    case Or => Some(Bitwise(KOr, a, b))
    case Xor => Some(Bitwise(KXor, a, b))
    case Shl => Some(ShiftLeft(a, b))
    case Shr => Some(ShiftRight(a, b))
    case CmpEq => Some(Truth(a == b))
    case CmpNe => Some(Truth(a != b))
    case CmpLt => Some(Truth(a < b))
    case CmpLe => Some(Truth(a <= b))
    case CmpGt => Some(Truth(a > b))
    case CmpGe => Some(Truth(a >= b))
  }

  // ----- identities of the bitwise operations -----

  lemma {:induction false} BitsZero(k: BitKind, n: nat, x: nat)
    ensures Bits(KAnd, n, x, 0) == 0
    ensures x < Pow2(n) && !k.KAnd? ==> Bits(k, n, x, 0) == x
  {
    if n > 0 { BitsZero(k, n - 1, x / 2); }
  }

  lemma {:induction false} BitsSame(n: nat, x: nat)
    requires x < Pow2(n)
    ensures Bits(KAnd, n, x, x) == x && Bits(KOr, n, x, x) == x && Bits(KXor, n, x, x) == 0
  {
    if n > 0 { BitsSame(n - 1, x / 2); }
  }

  lemma {:induction false} BitsOnes(n: nat, x: nat)
    requires x < Pow2(n)
    ensures Bits(KAnd, n, x, Pow2(n) - 1) == x && Bits(KOr, n, x, Pow2(n) - 1) == Pow2(n) - 1
  {
    if n > 0 {
      BitsOnes(n - 1, x / 2);
      assert (Pow2(n) - 1) / 2 == Pow2(n - 1) - 1;
    }
  }

  lemma {:induction false} BitsComplement(n: nat, x: nat)
    requires x < Pow2(n)
    ensures Bits(KXor, n, x, Pow2(n) - 1) == Pow2(n) - 1 - x
  {
    if n > 0 {
      BitsComplement(n - 1, x / 2);
      assert (Pow2(n) - 1) / 2 == Pow2(n - 1) - 1;
    }
  }

  lemma {:induction false} BitsSwap(k: BitKind, n: nat, x: nat, y: nat)
    ensures Bits(k, n, x, y) == Bits(k, n, y, x)
  {
    if n > 0 { BitsSwap(k, n - 1, x / 2, y / 2); }
  }

  lemma Pow2Is64()
    ensures Pow2(64) == TWO64 && Pow2(63) == TWO63
  {
    assert Pow2(8) == 256;
    assert Pow2(16) == 65536;
    assert Pow2(24) == 0x100_0000;
    assert Pow2(32) == 0x1_0000_0000;
    assert Pow2(40) == 0x100_0000_0000;
    assert Pow2(48) == 0x1_0000_0000_0000;
    assert Pow2(56) == 0x100_0000_0000_0000;
    assert Pow2(63) == TWO63;
  }

  /** The bitwise identities that the optimiser's algebraic rules rely on. */
  lemma BitwiseIdentities(x: Word)
    ensures Bitwise(KAnd, x, 0) == 0 == Bitwise(KAnd, 0, x)
    ensures Bitwise(KAnd, x, x) == x == Bitwise(KOr, x, x) && Bitwise(KXor, x, x) == 0
    ensures Bitwise(KAnd, x, -1) == x == Bitwise(KAnd, -1, x)
    ensures Bitwise(KOr, x, 0) == x == Bitwise(KOr, 0, x)
    ensures Bitwise(KOr, x, -1) == -1 == Bitwise(KOr, -1, x)
    ensures Bitwise(KXor, x, 0) == x == Bitwise(KXor, 0, x)
  {
    var n := Unsigned(x);
    Pow2Is64();
    assert Unsigned(-1) == Pow2(64) - 1;
    BitsSame(64, n);
    BitsOnes(64, n);
    BitsZero(KOr, 64, n);
    BitsZero(KXor, 64, n);
    forall k: BitKind ensures Bits(k, 64, n, 0) == Bits(k, 64, 0, n)
        && Bits(k, 64, n, Pow2(64) - 1) == Bits(k, 64, Pow2(64) - 1, n) {
      BitsSwap(k, 64, n, 0);
      BitsSwap(k, 64, n, Pow2(64) - 1);
    }
  }

  /** The bitwise complement: `x ^ -1` is `-x - 1`. */
  lemma Complement(x: Word)
    ensures Bitwise(KXor, x, -1) == Wrap(-(x as int) - 1)
  {
    Pow2Is64();
    assert Unsigned(-1) == Pow2(64) - 1;
    BitsComplement(64, Unsigned(x));
  }

  /** Words are equal as soon as their representatives differ by a multiple of 2^64. */
  lemma WrapCongruent(x: int, y: int, k: int)
    requires x == y + k * TWO64
    ensures Wrap(x) == Wrap(y)
  {
    assert (y + TWO63 + k * TWO64) % TWO64 == (y + TWO63) % TWO64;
  }

  ghost predicate IsPowerOfTwo(n: nat, m: nat) {
    exists k: nat :: k < n && m == Pow2(k)
  }

  /** `m & (m - 1) == 0` holds exactly of the powers of two (and of zero): the optimiser's test. */
  lemma {:induction false} PowerOfTwoTest(n: nat, m: nat)
    requires 0 < m < Pow2(n)
    ensures Bits(KAnd, n, m, m - 1) == 0 <==> IsPowerOfTwo(n, m)
  {
    if m == 1 {
      BitsZero(KAnd, n, m);
      assert m == Pow2(0);
    } else if m % 2 == 1 {
      assert (m - 1) / 2 == m / 2;
      BitsSame(n - 1, m / 2);
      assert forall k: nat :: k > 0 ==> Pow2(k) % 2 == 0;
    } else {
      assert (m - 1) / 2 == m / 2 - 1;
      PowerOfTwoTest(n - 1, m / 2);
      if j: nat :| j < n - 1 && m / 2 == Pow2(j) { assert m == Pow2(j + 1); }
      if k: nat :| k < n && m == Pow2(k) { assert k > 0 && m / 2 == Pow2(k - 1); }
    }
  }
}
