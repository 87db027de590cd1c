/** The value of a constant expression in plain integers and bits, without the functions of either evaluator. */
module ConstantMeaning {
  import opened Word64
  import opened Arithmetic
  import opened Literals
  import opened ConstantTrees

  /** `w` is the value of `a op b` in `#if`: that of C, except that a zero divisor and a shift count outside 0 to
      63 give 0. INT64_MIN / -1 has no value in C. */
  ghost predicate InfixMeans(op: Token, a: Word, b: Word, w: Word) {
    match op
    case Star => Means(Mul, a, b, w)
    case Slash => if b == 0 then w == 0 else Means(Div, a, b, w) || Stops(Div, a, b)
    case Percent => if b == 0 then w == 0 else Means(Mod, a, b, w) || Stops(Mod, a, b)
    case Plus => Means(Add, a, b, w)
    case Minus => Means(Sub, a, b, w)
    case ShiftL => if b < 0 || b > 63 then w == 0 else Means(Shl, a, b, w)
    case ShiftR => if b < 0 || b > 63 then w == 0 else Means(Shr, a, b, w)
    case Less => Means(CmpLt, a, b, w)
    case LessEq => Means(CmpLe, a, b, w)
    case Greater => Means(CmpGt, a, b, w)
    case GreaterEq => Means(CmpGe, a, b, w)
    case Equal => Means(CmpEq, a, b, w)
    case NotEqual => Means(CmpNe, a, b, w)
    case Amp => Means(And, a, b, w)
    case Caret => Means(Xor, a, b, w)
    case Bar => Means(Or, a, b, w)
    case AndAnd => IsTruth(w, a != 0 && b != 0)
    case OrOr => IsTruth(w, a != 0 || b != 0)
    case _ => true
  }

  predicate PrefixMeans(op: Token, a: Word, w: Word) {
    match op
    case Plus => w == a
    case Minus => SameBits(w, -(a as int))
    case Tilde => forall i: nat :: i < 64 ==> (Bit(w, i) <==> !Bit(a, i))
    case Bang => IsTruth(w, a == 0)
    case _ => true
  }

  /** `w` is a value of the tree in `#if`, taking its literals as the evaluator of `#if` reads them. */
  ghost predicate Denotes(t: Tree, w: Word) {
    match t
    case Leaf(l) => SameBits(w, LadderNumber(l))
    case Prefix(op, e) => exists a: Word :: Denotes(e, a) && PrefixMeans(op, a, w)
    case Infix(op, l, r) => exists a: Word, b: Word :: Denotes(l, a) && Denotes(r, b) && InfixMeans(op, a, b, w)
  }

  lemma FlippedBits(a: Word)
    ensures forall i: nat :: i < 64 ==> (Bit(Wrap(-(a as int) - 1), i) <==> !Bit(a, i))
  {
    hide Bit;
    SameLowBits(Wrap(-(a as int) - 1), -(a as int) - 1);
    forall i: nat | i < 64 ensures Bit(-(a as int) - 1, i) <==> !Bit(a, i) { FlippedBit(a, i); }
  }

  lemma {:induction false} FlippedBit(x: int, i: nat)
    ensures Bit(-x - 1, i) <==> !Bit(x, i)
    decreases i
  {
    if i > 0 { FlippedBit(x / 2, i - 1); }
  }

  /** What `#if` makes of an operator is what it means. */
  lemma PPInfixMeans(op: Token, a: Word, b: Word)
    ensures InfixMeans(op, a, b, PPInfix(op, a, b))
  {
    hide Alu, Means, Stops, Wrap, TruncDiv, TruncMod, ShiftLeft, ShiftRight, Bitwise;
    forall o: BinOp ensures Alu(o, a, b).None? <==> Stops(o, a, b)
      ensures Alu(o, a, b).Some? ==> Means(o, a, b, Alu(o, a, b).value) {
      AluMeans(o, a, b);
    }
    AluOf(op, a, b);
  }

  /** The operators of `#if` and those of the machine. */
  lemma AluOf(op: Token, a: Word, b: Word)
    ensures var w := PPInfix(op, a, b);
            match op
            case Star => Alu(Mul, a, b) == Some(w)
            case Slash => if b == 0 then w == 0 else Stops(Div, a, b) || Alu(Div, a, b) == Some(w)
            case Percent => if b == 0 then w == 0 else Stops(Mod, a, b) || Alu(Mod, a, b) == Some(w)
            case Plus => Alu(Add, a, b) == Some(w)
            case Minus => Alu(Sub, a, b) == Some(w)
            case ShiftL => if b < 0 || b > 63 then w == 0 else Alu(Shl, a, b) == Some(w)
            case ShiftR => if b < 0 || b > 63 then w == 0 else Alu(Shr, a, b) == Some(w)
            case Less => Alu(CmpLt, a, b) == Some(w)
            case LessEq => Alu(CmpLe, a, b) == Some(w)
            case Greater => Alu(CmpGt, a, b) == Some(w)
            case GreaterEq => Alu(CmpGe, a, b) == Some(w)
            case Equal => Alu(CmpEq, a, b) == Some(w)
            case NotEqual => Alu(CmpNe, a, b) == Some(w)
            case Amp => Alu(And, a, b) == Some(w)
            case Caret => Alu(Xor, a, b) == Some(w)
            case Bar => Alu(Or, a, b) == Some(w)
            case AndAnd => IsTruth(w, a != 0 && b != 0)
            case OrOr => IsTruth(w, a != 0 || b != 0)
            case _ => true
  {
    hide Wrap, TruncDiv, TruncMod, ShiftLeft, ShiftRight, Bitwise;
  }

  lemma PPPrefixMeans(op: Token, a: Word)
    ensures PrefixMeans(op, a, PPPrefix(op, a))
  {
    hide Bit;
    FlippedBits(a);
  }

  /** The evaluator of `#if` computes a value of every tree. */
  lemma {:induction false} PPValueDenoted(t: Tree)
    ensures Denotes(t, PPValue(t))
  {
    hide InfixMeans, PrefixMeans, PPInfix, PPPrefix, LadderNumber;
    match t
    case Leaf(l) =>
    case Prefix(op, e) =>
      PPValueDenoted(e);
      PPPrefixMeans(op, PPValue(e));
    case Infix(op, l, r) =>
      PPValueDenoted(l);
      PPValueDenoted(r);
      PPInfixMeans(op, PPValue(l), PPValue(r));
  }

  lemma PrefixDetermined(op: Token, a: Word, v: Word, w: Word)
    requires op in {Plus, Minus, Bang, Tilde} && PrefixMeans(op, a, v) && PrefixMeans(op, a, w)
    ensures v == w
  {
    hide Bit;
    if op.Tilde? {
      forall i: nat | i < 64 ensures Bit(v, i) == Bit(w, i) { }
      SameWord(v, w);
    }
  }

  lemma InfixDetermined(op: Token, a: Word, b: Word, v: Word, w: Word)
    requires IsInfix(op) && (op in {Slash, Percent} ==> !(a == -TWO63 && b == -1))
    requires InfixMeans(op, a, b, v) && InfixMeans(op, a, b, w)
    ensures v == w
  {
    hide Means;
    forall o: BinOp | !Stops(o, a, b) && Means(o, a, b, v) && Means(o, a, b, w) ensures v == w {
      Determined(o, a, b, v, w);
    }
  }

  lemma PrefixOnce(op: Token, e: Tree, v: Word, w: Word)
    requires op in {Plus, Minus, Bang, Tilde} && forall a: Word :: Denotes(e, a) ==> a == v
    requires Denotes(Prefix(op, e), w)
    ensures w == PPPrefix(op, v)
  {
    hide PrefixMeans, PPPrefix;
    PPPrefixMeans(op, v);
    var a: Word :| Denotes(e, a) && PrefixMeans(op, a, w);
    PrefixDetermined(op, v, w, PPPrefix(op, v));
  }

  lemma InfixOnce(op: Token, l: Tree, r: Tree, v: Word, x: Word, w: Word)
    requires InRange(op, v, x)
    requires (forall a: Word :: Denotes(l, a) ==> a == v) && (forall b: Word :: Denotes(r, b) ==> b == x)
    requires Denotes(Infix(op, l, r), w)
    ensures w == PPInfix(op, v, x)
  {
    hide InfixMeans, PPInfix;
    PPInfixMeans(op, v, x);
    var a: Word, b: Word :| Denotes(l, a) && Denotes(r, b) && InfixMeans(op, a, b, w);
    InfixDetermined(op, v, x, w, PPInfix(op, v, x));
  }

  lemma {:induction false} OneValue(t: Tree, w: Word)
    requires Valued(t) && Denotes(t, w)
    ensures w == PPValue(t)
  {
    hide PPInfix, PPPrefix, LadderNumber, Denotes, InRange;
    match t
    case Leaf(l) => LeafOnce(l, w);
    case Prefix(op, e) =>
      forall a: Word | Denotes(e, a) ensures a == PPValue(e) { OneValue(e, a); }
      PrefixOnce(op, e, PPValue(e), w);
    case Infix(op, l, r) =>
      forall a: Word | Denotes(l, a) ensures a == PPValue(l) { OneValue(l, a); }
      forall b: Word | Denotes(r, b) ensures b == PPValue(r) { OneValue(r, b); }
      InfixOnce(op, l, r, PPValue(l), PPValue(r), w);
  }

  lemma LeafOnce(l: Literal, w: Word)
    requires Denotes(Leaf(l), w)
    ensures w == PPValue(Leaf(l))
  {
    hide LadderNumber;
    SameWord(w, PPValue(Leaf(l)));
  }

  /** Where both evaluators agree there is one value only, and it is the one that both compute. */
  lemma DenotedOnce(t: Tree, w: Word)
    requires Valued(t)
    ensures Denotes(t, w) <==> Eval(t) == Some(w)
  {
    hide Denotes, Eval, PPValue, Valued;
    SameValue(t);
    PPValueDenoted(t);
    if Denotes(t, w) { OneValue(t, w); }
  }
}
