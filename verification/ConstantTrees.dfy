/** Integer constant expressions as trees, with the two ways of valuing them: the constant evaluator of the
    compiler (`eval_integer_constant`), which reports whether it succeeded, and the arithmetic of the `#if`
    evaluator (`pp_eval_*`), which always yields a number. */
module ConstantTrees {
  import opened Word64
  import opened Literals

  /** Tokens; `Stop` stands for text inside a literal that the evaluator of `#if` has left. */
  datatype Token =
    | Lit(lit: Literal)
    | Stop
    | LParen | RParen
    | Plus | Minus | Bang | Tilde
    | Star | Slash | Percent
    | ShiftL | ShiftR
    | Less | LessEq | Greater | GreaterEq
    | Equal | NotEqual
    | Amp | Caret | Bar
    | AndAnd | OrOr

  type Tokens = seq<Token>

  datatype Tree =
    | Leaf(lit: Literal)
    | Prefix(op: Token, e: Tree)
    | Infix(op: Token, l: Tree, r: Tree)

  function Pick(b: bool): Word {
    if b then 1 else 0
  }

  // ----- the compiler's evaluator -----

  function EvalPrefix(op: Token, a: Word): Option<Word> {
    match op
    case Minus => Some(Wrap(-(a as int)))
    case Plus => Some(a)
    case Tilde => Some(Wrap(-(a as int) - 1))
    case Bang => Some(Pick(a == 0))
    case _ => None
  }

  function EvalInfix(op: Token, a: Word, b: Word): Option<Word> {
    match op
    case Plus => Some(Wrap(a as int + b as int))
    case Minus => Some(Wrap(a as int - b as int))
    case Star => Some(Wrap(a as int * b as int))
    case Slash => if DivTraps(a, b) then None else Some(Wrap(TruncDiv(a, b)))
    case Percent => if DivTraps(a, b) then None else Some(Wrap(TruncMod(a, b)))
    case ShiftL => if 0 <= b < 64 then Some(ShiftLeft(a, b)) else None
    case ShiftR => if 0 <= b < 64 then Some(ShiftRight(a, b)) else None
    case Amp => Some(Bitwise(KAnd, a, b))
    case Bar => Some(Bitwise(KOr, a, b))
    case Caret => Some(Bitwise(KXor, a, b))
    case Equal => Some(Pick(a == b))
    case NotEqual => Some(Pick(a != b))
    case Less => Some(Pick(a < b))
    case LessEq => Some(Pick(a <= b))
    case Greater => Some(Pick(a > b))
    case GreaterEq => Some(Pick(a >= b))
    case AndAnd => Some(Pick(a != 0 && b != 0))
    case OrOr => Some(Pick(a != 0 || b != 0))
    case _ => None
  }

  /** The value of a tree, None where the evaluator reports failure. */
  function Eval(t: Tree): Option<Word> {
    match t
    case Leaf(l) => Some(Wrap(CompilerNumber(l)))
    case Prefix(op, e) =>
      var a := Eval(e);
      if a.None? then None else EvalPrefix(op, a.value)
    case Infix(op, l, r) =>
      var a, b := Eval(l), Eval(r);
      if a.None? || b.None? then None else EvalInfix(op, a.value, b.value)
  }

  // ----- the arithmetic of `#if` -----

  function PPPrefix(op: Token, a: Word): Word {
    match op
    case Minus => Wrap(-(a as int))
    case Tilde => Wrap(-(a as int) - 1)
    case Bang => Pick(a == 0)
    case _ => a
  }

  /** A zero divisor or a shift count outside 0 to 63 gives 0. */
  function PPInfix(op: Token, a: Word, b: Word): Word {
    match op
    case Plus => Wrap(a as int + b as int)
    case Minus => Wrap(a as int - b as int)
    case Star => Wrap(a as int * b as int)
    case Slash => if b != 0 then Wrap(TruncDiv(a, b)) else 0
    case Percent => if b != 0 then Wrap(TruncMod(a, b)) else 0
    case ShiftL => if 0 <= b < 64 then ShiftLeft(a, b) else 0
    case ShiftR => if 0 <= b < 64 then ShiftRight(a, b) else 0
    case Amp => Bitwise(KAnd, a, b)
    case Bar => Bitwise(KOr, a, b)
    case Caret => Bitwise(KXor, a, b)
    case Equal => Pick(a == b)
    case NotEqual => Pick(a != b)
    case Less => Pick(a < b)
    case LessEq => Pick(a <= b)
    case Greater => Pick(a > b)
    case GreaterEq => Pick(a >= b)
    case AndAnd => Pick(a != 0 && b != 0)
    case OrOr => Pick(a != 0 || b != 0)
    case _ => 0
  }

  function PPValue(t: Tree): Word {
    match t
    case Leaf(l) => Wrap(LadderNumber(l))
    case Prefix(op, e) => PPPrefix(op, PPValue(e))
    case Infix(op, l, r) => PPInfix(op, PPValue(l), PPValue(r))
  }

  // ----- where the two agree -----

  predicate IsInfix(op: Token) {
    !op.Lit? && op !in {Stop, LParen, RParen, Bang, Tilde}
  }

  /** A nonzero divisor, a quotient that fits a word, a shift count below 64. */
  predicate InRange(op: Token, a: Word, b: Word) {
    && IsInfix(op)
    && (op in {Slash, Percent} ==> b != 0 && !(a == -TWO63 && b == -1))
    && (op in {ShiftL, ShiftR} ==> 0 <= b < 64)
  }

  /** All literals are ones that both read alike, the operands of every operator are in range, and all
      prefix operators are ones of constants. */
  predicate Valued(t: Tree) {
    match t
    case Leaf(l) => ReadAlike(l)
    case Prefix(op, e) => op in {Plus, Minus, Bang, Tilde} && Valued(e)
    case Infix(op, l, r) =>
      Valued(l) && Valued(r) && InRange(op, PPValue(l), PPValue(r))
  }

  lemma InfixExact(op: Token, a: Word, b: Word)
    ensures EvalInfix(op, a, b).Some? <==> InRange(op, a, b)
    ensures InRange(op, a, b) ==> EvalInfix(op, a, b) == Some(PPInfix(op, a, b))
  {
    hide Wrap, ShiftLeft, ShiftRight, Bitwise, TruncDiv, TruncMod;
  }

  lemma PrefixExact(op: Token, a: Word)
    ensures EvalPrefix(op, a).Some? <==> op in {Plus, Minus, Bang, Tilde}
    ensures EvalPrefix(op, a).Some? ==> EvalPrefix(op, a) == Some(PPPrefix(op, a))
  {
    hide Wrap;
  }

  /** Both read every literal to its end and as the same number, and give every subexpression the same value. */
  predicate Agree(t: Tree) {
    match t
    case Leaf(l) => !Cut(l) && LadderNumber(l) == CompilerNumber(l)
    case Prefix(_, e) => Agree(e) && Eval(t) == Some(PPValue(t))
    case Infix(_, l, r) => Agree(l) && Agree(r) && Eval(t) == Some(PPValue(t))
  }

  /** Of a literal that fits a word the same holds of the words: the numbers do not meet by wrapping. */
  lemma WordsTell(l: Literal)
    requires CompilerNumber(l) < TWO63
    ensures Wrap(LadderNumber(l)) == Wrap(CompilerNumber(l)) <==> LadderNumber(l) == CompilerNumber(l)
  {
    hide CompilerNumber, LadderNumber;
    LadderBound(l);
  }

  /** The two agree throughout on exactly these trees. */
  lemma {:induction false} SameValue(t: Tree)
    ensures Agree(t) <==> Valued(t)
    ensures Valued(t) ==> Eval(t) == Some(PPValue(t))
  {
    hide EvalPrefix, EvalInfix, PPPrefix, PPInfix, InRange, CompilerNumber, LadderNumber, Cut, ReadAlike;
    match t
    case Leaf(l) => LiteralExact(l);
    case Prefix(op, e) =>
      SameValue(e);
      PrefixExact(op, PPValue(e));
    case Infix(op, l, r) =>
      SameValue(l);
      SameValue(r);
      InfixExact(op, PPValue(l), PPValue(r));
  }

  /** The trees both can value hold no literal that the evaluator of `#if` cuts, and only its prefix operators. */
  predicate Constant(t: Tree) {
    match t
    case Leaf(l) => !Cut(l)
    case Prefix(op, e) => op in {Plus, Minus, Bang, Tilde} && Constant(e)
    case Infix(_, l, r) => Constant(l) && Constant(r)
  }

  lemma {:induction false} ValuedIsConstant(t: Tree)
    requires Valued(t)
    ensures Constant(t)
  {
    hide InRange, PPValue;
    match t
    case Leaf(l) => LiteralExact(l);
    case Prefix(_, e) => ValuedIsConstant(e);
    case Infix(_, l, r) =>
      ValuedIsConstant(l);
      ValuedIsConstant(r);
  }
}
