/** What the operations on words mean in plain integers and single bits, stated without the functions that
    compute them. Each meaning determines the result. */
module Arithmetic {
  import opened Word64

  /** Congruent modulo 2^64. */
  predicate SameBits(x: int, y: int) {
    (x - y) % 0x1_0000_0000_0000_0000 == 0
  }

  /** C division: the quotient `q` is exact up to a remainder that is smaller than the divisor and has the
      sign of the dividend. */
  predicate Divides(a: int, b: int, q: int, r: int) {
    && a == b * q + r
    && (if b > 0 then -b < r < b else b < r < -b)
    && (r > 0 ==> a > 0) && (r < 0 ==> a < 0)
  }

  /** Bit `i` of the two's complement of `x`; the sign goes on for ever. */
  predicate Bit(x: int, i: nat)
    decreases i
  {
    if i == 0 then x % 2 == 1 else Bit(x / 2, i - 1)
  }

  predicate IsTruth(w: Word, b: bool) {
    (w == 1 && b) || (w == 0 && !b)
  }

  /** `w` is the result of the operation. */
  ghost predicate Means(op: BinOp, a: Word, b: Word, w: Word) {
    match op
    case Add => SameBits(w, a + b)
    case Sub => SameBits(w, a - b)
    case Mul => SameBits(w, a * b)
    case Div => exists r :: Divides(a, b, w, r)
    case Mod => exists q :: Divides(a, b, q, w)
    case And => forall i: nat :: i < 64 ==> (Bit(w, i) <==> Bit(a, i) && Bit(b, i))
    case Or => forall i: nat :: i < 64 ==> (Bit(w, i) <==> Bit(a, i) || Bit(b, i))
    case Xor => forall i: nat :: i < 64 ==> (Bit(w, i) <==> Bit(a, i) != Bit(b, i))
    case Shl => forall i: nat :: i < 64 ==> (Bit(w, i) <==> i >= b % 64 && Bit(a, i - b % 64))
    case Shr => forall i: nat :: i < 64 ==> (Bit(w, i) <==> Bit(a, i + b % 64))
    case CmpEq => IsTruth(w, a == b)
    case CmpNe => IsTruth(w, a != b)
    case CmpLt => IsTruth(w, a < b)
    case CmpLe => IsTruth(w, a <= b)
    case CmpGt => IsTruth(w, a > b)
    case CmpGe => IsTruth(w, a >= b)
  }

  /** Division stops the program. */
  predicate Stops(op: BinOp, a: Word, b: Word) {
    (op.Div? || op.Mod?) && (b == 0 || (a == -0x8000_0000_0000_0000 && b == -1))
  }

  // ----- division -----

  lemma Euclid(a: nat, b: nat)
    requires b > 0
    ensures a == b * (a / b) + a % b && 0 <= a % b < b
  {
  }

  lemma TruncDivides(a: int, b: int)
    requires b != 0
    ensures Divides(a, b, TruncDiv(a, b), TruncMod(a, b))
  {
    var m, n := if a >= 0 then a else -a, if b > 0 then b else -b;
    Euclid(m, n);
    var q := m / n;
    assert TruncDiv(a, b) == if (a >= 0) == (b > 0) then q else -q;
    assert b * -q == -(b * q) && -b * q == -(b * q);
  }

  lemma OneQuotient(a: int, b: int, q: int, r: int, q': int, r': int)
    requires b != 0 && Divides(a, b, q, r) && Divides(a, b, q', r')
    ensures q == q' && r == r'
  {
    var n, d := if b > 0 then b else -b, q - q';
    assert b * d == b * q - b * q' == r' - r;
    assert -b * d == -(b * d) && n * -d == -(n * d);
    assert -n < r' - r < n;
    if d >= 1 { AtLeastOnce(n, d); } else if d <= -1 { AtLeastOnce(n, -d); }
  }

  lemma AtLeastOnce(n: nat, k: int)
    requires k >= 1
    ensures n * k >= n
  {
  }

  lemma QuotientFits(a: Word, b: Word, q: int, r: int)
    requires b != 0 && Divides(a, b, q, r) && !(a == -TWO63 && b == -1)
    ensures -TWO63 <= q < TWO63 && -TWO63 <= r < TWO63
  {
    var n: int, p: int := if b > 0 then b else -(b as int), if q >= 0 then q else -q;
    assert b * q == n * p || b * q == -(n * p);
    assert -TWO63 <= b * q <= TWO63;
    if p > TWO63 { Grows(n, p, TWO63 + 1); }
    if p == TWO63 && n >= 2 { Grows(p, n, 2); }
  }

  lemma Grows(b: int, q: int, n: int)
    requires b >= 1 && q >= n >= 0
    ensures b * q >= b * n
  {
  }

  // ----- bits -----

  /** Numbers that differ by a multiple of 2^n have the same low bits. */
  lemma {:induction false} LowBits(n: nat, x: int, y: int, k: int, i: nat)
    requires x == y + k * Pow2(n) && i < n
    ensures Bit(x, i) == Bit(y, i)
    decreases n
  {
    assert k * Pow2(n) == 2 * (k * Pow2(n - 1));
    if i > 0 { LowBits(n - 1, x / 2, y / 2, k, i - 1); }
  }

  lemma SameLowBits(x: int, y: int)
    requires SameBits(x, y)
    ensures forall i: nat :: i < 64 ==> Bit(x, i) == Bit(y, i)
  {
    Pow2Is64();
    var k := (x - y) / TWO64;
    forall i: nat | i < 64 ensures Bit(x, i) == Bit(y, i) { LowBits(64, x, y, k, i); }
  }

  lemma {:induction false} BitsTell(n: nat, x: int, y: int)
    requires forall i: nat :: i < n ==> Bit(x, i) == Bit(y, i)
    ensures (x - y) % Pow2(n) == 0
  {
    if n > 0 {
      assert Bit(x, 0) == Bit(y, 0);
      forall i: nat | i < n - 1 ensures Bit(x / 2, i) == Bit(y / 2, i) {
        assert Bit(x, i + 1) == Bit(y, i + 1);
      }
      BitsTell(n - 1, x / 2, y / 2);
      var k := (x / 2 - y / 2) / Pow2(n - 1);
      assert x - y == 2 * (x / 2 - y / 2) && x / 2 - y / 2 == k * Pow2(n - 1);
      assert x - y == k * Pow2(n);
      MultipleIsZero(k, Pow2(n));
    }
  }

  lemma MultipleIsZero(k: int, m: nat)
    requires m > 0
    ensures (k * m) % m == 0
  {
    var d, r := (k * m) / m - k, (k * m) % m;
    assert m * d == -r;
    if d >= 1 { AtLeastOnce(m, d); } else if d <= -1 { AtLeastOnce(m, -d); }
  }

  /** A word is its 64 bits. */
  lemma SameWord(v: Word, w: Word)
    requires SameBits(v, w) || forall i: nat :: i < 64 ==> Bit(v, i) == Bit(w, i)
    ensures v == w
  {
    Pow2Is64();
    if !SameBits(v, w) { BitsTell(64, v, w); }
  }

  lemma {:induction false} BitsEach(k: BitKind, n: nat, x: nat, y: nat, i: nat)
    requires i < n
    ensures k.KAnd? ==> (Bit(Bits(k, n, x, y), i) <==> Bit(x, i) && Bit(y, i))
    ensures k.KOr? ==> (Bit(Bits(k, n, x, y), i) <==> Bit(x, i) || Bit(y, i))
    ensures k.KXor? ==> (Bit(Bits(k, n, x, y), i) <==> Bit(x, i) != Bit(y, i))
  {
    if i > 0 { BitsEach(k, n - 1, x / 2, y / 2, i - 1); }
  }

  lemma BitwiseEach(k: BitKind, a: Word, b: Word, i: nat)
    requires i < 64
    ensures k.KAnd? ==> (Bit(Bitwise(k, a, b), i) <==> Bit(a, i) && Bit(b, i))
    ensures k.KOr? ==> (Bit(Bitwise(k, a, b), i) <==> Bit(a, i) || Bit(b, i))
    ensures k.KXor? ==> (Bit(Bitwise(k, a, b), i) <==> Bit(a, i) != Bit(b, i))
  {
    hide Bits, Bit;
    BitsEach(k, 64, Unsigned(a), Unsigned(b), i);
    SameLowBits(Unsigned(a), a);
    SameLowBits(Unsigned(b), b);
    SameLowBits(Bitwise(k, a, b), Bits(k, 64, Unsigned(a), Unsigned(b)));
  }

  lemma {:induction false} BitUp(x: int, n: nat, i: nat)
    ensures Bit(x * Pow2(n), i) <==> i >= n && Bit(x, i - n)
    decreases n
  {
    if n == 0 {
      assert x * Pow2(0) == x;
    } else {
      assert x * Pow2(n) == 2 * (x * Pow2(n - 1));
      if i > 0 { BitUp(x, n - 1, i - 1); }
    }
  }

  lemma {:induction false} BitDown(x: int, n: nat, i: nat)
    ensures Bit(x / Pow2(n), i) <==> Bit(x, i + n)
    decreases n
  {
    if n > 0 {
      BitDown(x / 2, n - 1, i);
      Halved(x, Pow2(n - 1));
    }
  }

  lemma Halved(x: int, m: nat)
    requires m >= 1
    ensures x / (2 * m) == x / 2 / m
  {
    var q, r := x / 2 / m, x / 2 % m;
    assert x / 2 == m * q + r;
    var s := x - 2 * m * q;
    assert x == (2 * m) * q + s && 0 <= s < 2 * m;
    QuotientIs(x, 2 * m, q, s);
  }

  lemma QuotientIs(x: int, m: nat, q: int, s: int)
    requires m >= 1 && x == m * q + s && 0 <= s < m
    ensures x / m == q
  {
    var d := x / m - q;
    assert m * d == s - x % m;
    if d >= 1 { AtLeastOnce(m, d); } else if d <= -1 { AtLeastOnce(m, -d); }
  }

  lemma ShiftEach(a: Word, b: Word, i: nat)
    requires i < 64
    ensures Bit(ShiftLeft(a, b), i) <==> i >= b % 64 && Bit(a, i - b % 64)
    ensures Bit(ShiftRight(a, b), i) <==> Bit(a, i + b % 64)
  {
    hide Bit;
    var n := b % 64;
    SameLowBits(ShiftLeft(a, b), a * Pow2(n));
    SameLowBits(ShiftRight(a, b), a / Pow2(n));
    BitUp(a, n, i);
    BitDown(a, n, i);
  }

  // ----- the operations -----

  lemma BitwiseMeans(a: Word, b: Word)
    ensures Means(And, a, b, Bitwise(KAnd, a, b)) && Means(Or, a, b, Bitwise(KOr, a, b))
    ensures Means(Xor, a, b, Bitwise(KXor, a, b))
    ensures Means(Shl, a, b, ShiftLeft(a, b)) && Means(Shr, a, b, ShiftRight(a, b))
  {
    hide Bitwise, ShiftLeft, ShiftRight, Bit;
    forall i: nat | i < 64
      ensures Bit(Bitwise(KAnd, a, b), i) <==> Bit(a, i) && Bit(b, i)
      ensures Bit(Bitwise(KOr, a, b), i) <==> Bit(a, i) || Bit(b, i)
      ensures Bit(Bitwise(KXor, a, b), i) <==> Bit(a, i) != Bit(b, i)
      ensures Bit(ShiftLeft(a, b), i) <==> i >= b % 64 && Bit(a, i - b % 64)
      ensures Bit(ShiftRight(a, b), i) <==> Bit(a, i + b % 64)
    {
      BitwiseEach(KAnd, a, b, i);
      BitwiseEach(KOr, a, b, i);
      BitwiseEach(KXor, a, b, i);
      ShiftEach(a, b, i);
    }
  }

  lemma DivisionMeans(a: Word, b: Word)
    ensures Stops(Div, a, b) <==> Alu(Div, a, b).None?
    ensures Stops(Mod, a, b) <==> Alu(Mod, a, b).None?
    ensures !Stops(Div, a, b) ==> Divides(a, b, Alu(Div, a, b).value, Alu(Mod, a, b).value)
  {
    hide TruncDiv, TruncMod;
    if b != 0 && !Stops(Div, a, b) {
      TruncDivides(a, b);
      QuotientFits(a, b, TruncDiv(a, b), TruncMod(a, b));
    }
  }

  lemma AluMeans(op: BinOp, a: Word, b: Word)
    ensures Alu(op, a, b).None? <==> Stops(op, a, b)
    ensures Alu(op, a, b).Some? ==> Means(op, a, b, Alu(op, a, b).value)
  {
    hide Bitwise, ShiftLeft, ShiftRight, Bit, TruncDiv, TruncMod, Divides;
    DivisionMeans(a, b);
    BitwiseMeans(a, b);
  }

  lemma OneDivision(a: Word, b: Word, v: Word, w: Word)
    requires b != 0
    requires (Means(Div, a, b, v) && Means(Div, a, b, w)) || (Means(Mod, a, b, v) && Means(Mod, a, b, w))
    ensures v == w
  {
    hide Divides;
    if Means(Div, a, b, v) && Means(Div, a, b, w) {
      var r :| Divides(a, b, v, r);
      var r' :| Divides(a, b, w, r');
      OneQuotient(a, b, v, r, w, r');
    } else {
      var q :| Divides(a, b, q, v);
      var q' :| Divides(a, b, q', w);
      OneQuotient(a, b, q, v, q', w);
    }
  }

  lemma OneSum(v: Word, w: Word, x: int)
    requires SameBits(v, x) && SameBits(w, x)
    ensures v == w
  {
  }

  /** The meaning leaves no choice. */
  lemma Determined(op: BinOp, a: Word, b: Word, v: Word, w: Word)
    requires Means(op, a, b, v) && Means(op, a, b, w) && !Stops(op, a, b)
    ensures v == w
  {
    hide Bit, Divides, SameBits;
    if op.Div? || op.Mod? {
      OneDivision(a, b, v, w);
    } else if op.Add? {
      OneSum(v, w, a + b);
    } else if op.Sub? {
      OneSum(v, w, a - b);
    } else if op.Mul? {
      OneSum(v, w, a * b);
    } else if op in {And, Or, Xor, Shl, Shr} {
      SameWord(v, w);
    }
  }

  /** An operation has a result exactly where division does not stop, and it is the one that is meant. */
  lemma AluExact(op: BinOp, a: Word, b: Word, w: Word)
    ensures Alu(op, a, b) == Some(w) <==> !Stops(op, a, b) && Means(op, a, b, w)
  {
    hide Alu, Means, Stops;
    AluMeans(op, a, b);
    if !Stops(op, a, b) && Means(op, a, b, w) { Determined(op, a, b, w, Alu(op, a, b).value); }
  }
}
