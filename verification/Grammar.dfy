/** The grammar of constant expressions (sections 6.5.3 and 6.5.5 to 6.5.14 of ISO/IEC 9899:2011), and that both
    parsers follow it. */
module Grammar {
  import opened Word64
  import opened Literals
  import opened ConstantTrees
  import opened TwoParsers

  datatype Category =
    | Primary | Unary | Multiplicative | Additive | Shift | Relational | Equality
    | BitAnd | BitXor | BitOr | LogicalAnd | LogicalOr

  /** The category of the operands that are not of the same category. */
  function Operand(c: Category): Category {
    match c
    case Primary => Primary
    case Unary => Primary
    case Multiplicative => Unary
    case Additive => Multiplicative
    case Shift => Additive
    case Relational => Shift
    case Equality => Relational
    case BitAnd => Equality
    case BitXor => BitAnd
    case BitOr => BitXor
    case LogicalAnd => BitOr
    case LogicalOr => LogicalAnd
  }

  function Operators(c: Category): set<Token> {
    match c
    case Primary => {}
    case Unary => {Plus, Minus, Bang, Tilde, Star, Amp}
    case Multiplicative => {Star, Slash, Percent}
    case Additive => {Plus, Minus}
    case Shift => {ShiftL, ShiftR}
    case Relational => {Less, LessEq, Greater, GreaterEq}
    case Equality => {Equal, NotEqual}
    case BitAnd => {Amp}
    case BitXor => {Caret}
    case BitOr => {Bar}
    case LogicalAnd => {AndAnd}
    case LogicalOr => {OrOr}
  }

  function Rank(c: Category): nat {
    match c
    case Primary => 0
    case Unary => 1
    case Multiplicative => 2
    case Additive => 3
    case Shift => 4
    case Relational => 5
    case Equality => 6
    case BitAnd => 7
    case BitXor => 8
    case BitOr => 9
    case LogicalAnd => 10
    case LogicalOr => 11
  }

  /** The tokens are an expression of this category, and `t` is its tree. Binary operators group from the left. */
  ghost predicate Derives(c: Category, t: Tree, ts: Tokens)
    decreases |ts|, Rank(c)
  {
    match c
    case Primary =>
      || (t.Leaf? && ts == [Lit(t.lit)])
      || (|ts| > 2 && ts[0] == LParen && ts[|ts| - 1] == RParen && Derives(LogicalOr, t, ts[1..|ts| - 1]))
    case Unary =>
      || Derives(Primary, t, ts)
      || (t.Prefix? && |ts| > 1 && ts[0] == t.op && t.op in Operators(Unary) && Derives(Unary, t.e, ts[1..]))
    case _ =>
      || Derives(Operand(c), t, ts)
      || (t.Infix? && t.op in Operators(c)
          && exists i :: 0 < i < |ts| - 1 && ts[i] == t.op
                         && Derives(c, t.l, ts[..i]) && Derives(Operand(c), t.r, ts[i + 1..]))
  }

  predicate Binary(c: Category) {
    !c.Primary? && !c.Unary?
  }

  /** The level of the parsers that treats a category. */
  function LevelOf(c: Category): nat {
    13 - Rank(c)
  }

  lemma OperatorLevel(c: Category, t: Token)
    requires Binary(c)
    ensures t in Operators(c) <==> Precedence(t) == LevelOf(c)
    ensures LevelOf(Operand(c)) == LevelOf(c) + 1
  {
  }

  lemma {:induction false} NotEmpty(c: Category, t: Tree, ts: Tokens)
    requires Derives(c, t, ts)
    ensures ts != []
    decreases Rank(c)
  {
    if !c.Primary? && Derives(Operand(c), t, ts) { NotEmpty(Operand(c), t, ts); }
  }

  /** What may follow an expression that climbing takes no further: no call, no operator of its level or above. */
  predicate Follows(rest: Tokens, k: nat) {
    HeadPrecedence(rest) <= k && (rest != [] ==> rest[0] != LParen)
  }

  // ----- every derivation is found -----

  /** Climbing takes what the grammar derives, and goes on from there. */
  lemma {:induction false} DerivedIsClimbed(c: Category, t: Tree, ts: Tokens, rest: Tokens)
    requires Derives(c, t, ts) && (rest != [] ==> rest[0] != LParen)
    ensures c.Primary? || c.Unary? ==> ClimbUnary(ts + rest) == Some(Parsed(t, rest))
    ensures Binary(c) && HeadPrecedence(rest) <= LevelOf(c) ==>
              Climb(ts + rest, LevelOf(c)) == ClimbOn(t, rest, LevelOf(c))
    decreases |ts|, 3 * Rank(c) + 1
  {
    hide Climb, ClimbUnary, ClimbOn, Precedence;
    match c
    case Primary => PrimaryIsClimbed(t, ts, rest);
    case Unary =>
      if Derives(Primary, t, ts) {
        DerivedIsClimbed(Primary, t, ts, rest);
      } else {
        DerivedIsClimbed(Unary, t.e, ts[1..], rest);
        assert (ts + rest)[1..] == ts[1..] + rest;
        PrefixClimbed(ts + rest);
      }
    case _ =>
      if HeadPrecedence(rest) <= LevelOf(c) { BinaryIsClimbed(c, t, ts, rest); }
  }

  lemma PrefixClimbed(ts: Tokens)
    requires ts != [] && ts[0] in Operators(Unary) && ClimbUnary(ts[1..]).Some?
    ensures var e := ClimbUnary(ts[1..]).value; ClimbUnary(ts) == Some(Parsed(Prefix(ts[0], e.tree), e.rest))
  {
  }

  lemma LiteralClimbed(l: Literal, rest: Tokens)
    requires rest != [] ==> rest[0] != LParen
    ensures ClimbUnary([Lit(l)] + rest) == Some(Parsed(Leaf(l), rest))
  {
    assert ([Lit(l)] + rest)[1..] == rest;
  }

  lemma ParenthesesClimbed(ts: Tokens, t: Tree, rest: Tokens)
    requires ts != [] && ts[0] == LParen && Climb(ts[1..], 0) == Some(Parsed(t, [RParen] + rest))
    requires rest != [] ==> rest[0] != LParen
    ensures ClimbUnary(ts) == Some(Parsed(t, rest))
  {
    assert ([RParen] + rest)[1..] == rest;
  }

  lemma {:induction false} PrimaryIsClimbed(t: Tree, ts: Tokens, rest: Tokens)
    requires Derives(Primary, t, ts) && (rest != [] ==> rest[0] != LParen)
    ensures ClimbUnary(ts + rest) == Some(Parsed(t, rest))
    decreases |ts|, 0
  {
    hide Climb, ClimbUnary, ClimbOn, Precedence;
    if t.Leaf? && ts == [Lit(t.lit)] {
      LiteralClimbed(t.lit, rest);
    } else {
      var inner := ts[1..|ts| - 1];
      DerivedIsClimbed(LogicalOr, t, inner, [RParen] + rest);
      assert (ts + rest)[1..] == inner + ([RParen] + rest);
      Heads(rest);
      FromTheLowest(t, inner + ([RParen] + rest), [RParen] + rest);
      ParenthesesClimbed(ts + rest, t, rest);
    }
  }

  lemma Heads(rest: Tokens)
    ensures HeadPrecedence([RParen] + rest) == -1
    ensures forall op: Token :: HeadPrecedence([op] + rest) == Precedence(op)
    ensures LevelOf(LogicalOr) == 2
  {
  }

  /** Levels 0 and 1 have no operators. */
  lemma FromTheLowest(t: Tree, ts: Tokens, rest: Tokens)
    requires Climb(ts, 2) == ClimbOn(t, rest, 2) && HeadPrecedence(rest) < 0
    ensures Climb(ts, 0) == Some(Parsed(t, rest))
  {
    OneLevelDown(1, t, ts, rest);
    OneLevelDown(0, t, ts, rest);
  }

  /** Climbing one level further down. */
  lemma OneLevelDown(k: nat, t: Tree, ts: Tokens, rest: Tokens)
    requires Climb(ts, k + 1) == ClimbOn(t, rest, k + 1) && HeadPrecedence(rest) <= k
    ensures Climb(ts, k) == ClimbOn(t, rest, k)
  {
    var left := ClimbUnary(ts);
    assert ClimbOn(t, rest, k + 1) == Some(Parsed(t, rest));
    ClimbInTwo(left.value.tree, left.value.rest, k);
  }

  lemma FromUnary(ts: Tokens, t: Tree, rest: Tokens, k: nat)
    requires ClimbUnary(ts) == Some(Parsed(t, rest))
    ensures Climb(ts, k) == ClimbOn(t, rest, k)
  {
  }

  lemma OneOperator(op: Token, l: Tree, r: Tree, ts: Tokens, rest: Tokens, k: nat)
    requires Precedence(op) == k && Climb(ts, k + 1) == ClimbOn(r, rest, k + 1) && HeadPrecedence(rest) <= k
    ensures ClimbOn(l, [op] + ts, k) == ClimbOn(Infix(op, l, r), rest, k)
  {
    assert ([op] + ts)[1..] == ts;
    assert ClimbOn(r, rest, k + 1) == Some(Parsed(r, rest));
  }

  lemma {:induction false} OperandIsClimbed(c: Category, t: Tree, ts: Tokens, rest: Tokens)
    requires Binary(c) && Derives(Operand(c), t, ts) && Follows(rest, LevelOf(c))
    ensures Climb(ts + rest, LevelOf(c) + 1) == ClimbOn(t, rest, LevelOf(c) + 1)
    decreases |ts|, 3 * Rank(c) - 1
  {
    hide Climb, ClimbUnary, ClimbOn, Precedence, Derives;
    DerivedIsClimbed(Operand(c), t, ts, rest);
    if c.Multiplicative? { FromUnary(ts + rest, t, rest, 12); }
  }

  lemma OperatorAt(c: Category, t: Tree, ts: Tokens) returns (i: nat)
    requires Binary(c) && Derives(c, t, ts) && !Derives(Operand(c), t, ts)
    ensures t.Infix? && t.op in Operators(c) && 0 < i < |ts| - 1 && ts[i] == t.op
    ensures Derives(c, t.l, ts[..i]) && Derives(Operand(c), t.r, ts[i + 1..])
  {
    i :| 0 < i < |ts| - 1 && ts[i] == t.op && Derives(c, t.l, ts[..i]) && Derives(Operand(c), t.r, ts[i + 1..]);
  }

  lemma {:induction false} BinaryIsClimbed(c: Category, t: Tree, ts: Tokens, rest: Tokens)
    requires Binary(c) && Derives(c, t, ts) && Follows(rest, LevelOf(c))
    ensures Climb(ts + rest, LevelOf(c)) == ClimbOn(t, rest, LevelOf(c))
    decreases |ts|, 3 * Rank(c)
  {
    hide Climb, ClimbUnary, ClimbOn, Precedence, Derives, Operators, HeadPrecedence, Operand;
    if Derives(Operand(c), t, ts) {
      OperandIsClimbed(c, t, ts, rest);
      OneLevelDown(LevelOf(c), t, ts + rest, rest);
    } else {
      var i := OperatorAt(c, t, ts);
      InfixIsClimbed(c, t, ts[..i], ts[i + 1..], rest);
      assert ts[..i] + ([t.op] + (ts[i + 1..] + rest)) == ts + rest;
    }
  }

  lemma {:induction false} InfixIsClimbed(c: Category, t: Tree, a: Tokens, b: Tokens, rest: Tokens)
    requires Binary(c) && t.Infix? && t.op in Operators(c) && Derives(c, t.l, a) && Derives(Operand(c), t.r, b)
    requires Follows(rest, LevelOf(c))
    ensures Climb(a + ([t.op] + (b + rest)), LevelOf(c)) == ClimbOn(t, rest, LevelOf(c))
    decreases |a| + 1 + |b|, 3 * Rank(c) - 1
  {
    OperatorLevel(c, t.op);
    Heads(b + rest);
    hide Climb, ClimbUnary, ClimbOn, Precedence, Derives, Operators, LevelOf, HeadPrecedence;
    OperandIsClimbed(c, t.r, b, rest);
    DerivedIsClimbed(c, t.l, a, [t.op] + (b + rest));
    OneOperator(t.op, t.l, t.r, b + rest, rest, LevelOf(c));
  }

  // ----- what is found is derived -----

  function CategoryOf(k: nat): (c: Category)
    ensures !c.Primary? && (2 <= k <= TOP ==> LevelOf(c) == k)
  {
    if k >= 12 then Unary
    else if k == 11 then Multiplicative
    else if k == 10 then Additive
    else if k == 9 then Shift
    else if k == 8 then Relational
    else if k == 7 then Equality
    else if k == 6 then BitAnd
    else if k == 5 then BitXor
    else if k == 4 then BitOr
    else if k == 3 then LogicalAnd
    else LogicalOr
  }

  lemma {:induction false} Weaker(c: Category, d: Category, t: Tree, ts: Tokens)
    requires Derives(c, t, ts) && Rank(c) <= Rank(d)
    ensures Derives(d, t, ts)
    decreases Rank(d)
  {
    if c != d { Weaker(c, Operand(d), t, ts); }
  }

  /** `rest` is what is left of `ts` behind an expression of category `c`. */
  ghost predicate Splits(c: Category, t: Tree, ts: Tokens, rest: Tokens) {
    |rest| < |ts| && ts[|ts| - |rest|..] == rest && Derives(c, t, ts[..|ts| - |rest|])
  }

  lemma {:induction false} UnaryIsDerived(ts: Tokens)
    requires ClimbUnary(ts).Some?
    ensures Splits(Unary, ClimbUnary(ts).value.tree, ts, ClimbUnary(ts).value.rest)
    decreases |ts|, 0
  {
    hide Climb, ClimbOn, Precedence;
    if IsPrefix(ts[0]) {
      UnaryIsDerived(ts[1..]);
      var e := ClimbUnary(ts[1..]).value;
      PrefixSplits(ts, e.tree, e.rest);
    } else if ts[0].LParen? {
      ClimbedIsDerived(ts[1..], 0);
      var e := Climb(ts[1..], 0).value;
      ParenthesesSplit(ts, e.tree, e.rest);
    } else {
      LiteralSplits(ts);
    }
  }

  lemma LiteralSplits(ts: Tokens)
    requires ts != [] && ts[0].Lit?
    ensures Splits(Unary, Leaf(ts[0].lit), ts, ts[1..])
  {
    assert ts[..1] == [ts[0]];
    assert Derives(Primary, Leaf(ts[0].lit), ts[..1]);
  }

  lemma PrefixSplits(ts: Tokens, t: Tree, rest: Tokens)
    requires ts != [] && IsPrefix(ts[0]) && Splits(Unary, t, ts[1..], rest)
    ensures Splits(Unary, Prefix(ts[0], t), ts, rest)
  {
    var n := |ts| - |rest|;
    assert ts[..n][1..] == ts[1..][..n - 1];
    NotEmpty(Unary, t, ts[1..][..n - 1]);
  }

  lemma ParenthesesSplit(ts: Tokens, t: Tree, rest: Tokens)
    requires ts != [] && ts[0] == LParen && Splits(LogicalOr, t, ts[1..], rest) && rest != [] && rest[0] == RParen
    ensures Splits(Unary, t, ts, rest[1..])
  {
    var n := |ts| - |rest|;
    assert ts[n] == ts[1..][n - 1] == rest[0];
    assert ts[..n + 1][1..n] == ts[1..][..n - 1];
    NotEmpty(LogicalOr, t, ts[1..][..n - 1]);
    assert Derives(Primary, t, ts[..n + 1]);
  }

  lemma {:induction false} ClimbedIsDerived(ts: Tokens, min: nat)
    requires Climb(ts, min).Some? && min <= TOP
    ensures Splits(CategoryOf(min), Climb(ts, min).value.tree, ts, Climb(ts, min).value.rest)
    decreases |ts|, 2
  {
    hide ClimbUnary, ClimbOn, Derives;
    UnaryIsDerived(ts);
    var left := ClimbUnary(ts).value;
    var n := |ts| - |left.rest|;
    if left.rest != [] { PrecedenceBound(left.rest[0]); }
    LoopIsDerived(Unary, ts[..n], left.tree, left.rest, min);
    assert ts[..n] + left.rest == ts;
  }

  /** The loop keeps what it has taken derived, from looser and looser categories. */
  lemma {:induction false} LoopIsDerived(c: Category, before: Tokens, left: Tree, ts: Tokens, min: nat)
    requires Derives(c, left, before) && !c.Primary? && HeadPrecedence(ts) <= LevelOf(c) && min <= LevelOf(c)
    requires ClimbOn(left, ts, min).Some?
    ensures var r := ClimbOn(left, ts, min).value; Splits(CategoryOf(min), r.tree, before + ts, r.rest)
    decreases |ts|, 1
  {
    hide ClimbUnary, Climb, Derives, Precedence;
    var p := HeadPrecedence(ts);
    if p < min {
      Weaker(c, CategoryOf(min), left, before);
      NotEmpty(c, left, before);
      assert (before + ts)[..|before|] == before;
    } else {
      var right := Climb(ts[1..], p + 1).value;
      OperatorsHave(ts[0]);
      ClimbedIsDerived(ts[1..], p + 1);
      ClimbLeavesAll(ts[1..], p + 1);
      var d := CategoryOf(p);
      var taken := InfixSplits(c, d, before, left, ts, right.tree, right.rest);
      LoopIsDerived(d, taken, Infix(ts[0], left, right.tree), right.rest, min);
      assert taken + right.rest == before + ts;
    }
  }

  lemma OperatorsHave(op: Token)
    ensures Precedence(op) >= 0 ==>
              && 2 <= Precedence(op) < TOP && op in Operators(CategoryOf(Precedence(op)))
              && Operand(CategoryOf(Precedence(op))) == CategoryOf(Precedence(op) + 1)
  {
  }

  lemma InfixSplits(c: Category, d: Category, before: Tokens, l: Tree, ts: Tokens, r: Tree, rest: Tokens)
      returns (taken: Tokens)
    requires Binary(d) && Derives(c, l, before) && Rank(c) <= Rank(d)
    requires ts != [] && ts[0] in Operators(d) && Splits(Operand(d), r, ts[1..], rest)
    ensures Derives(d, Infix(ts[0], l, r), taken) && taken + rest == before + ts
  {
    hide Operators;
    var n := |ts| - |rest|;
    taken := before + ts[..n];
    var i := |before|;
    Weaker(c, d, l, before);
    NotEmpty(d, l, before);
    NotEmpty(Operand(d), r, ts[1..][..n - 1]);
    assert taken[..i] == before && taken[i] == ts[0] && taken[i + 1..] == ts[1..][..n - 1];
    assert taken + rest == before + (ts[..n] + ts[n..]);
  }

  /** The parser accepts exactly the expressions of the grammar, and its tree is the one that the grammar gives;
      there is no other. */
  lemma ParserExact(t: Tree, ts: Tokens)
    ensures Climb(ts, 0) == Some(Parsed(t, [])) <==> Derives(LogicalOr, t, ts)
  {
    hide Climb, Derives;
    Heads([]);
    assert HeadPrecedence([]) == -1;
    assert ts + [] == ts;
    if Derives(LogicalOr, t, ts) {
      DerivedIsClimbed(LogicalOr, t, ts, []);
      FromTheLowest(t, ts, []);
    }
    if Climb(ts, 0) == Some(Parsed(t, [])) {
      ClimbedIsDerived(ts, 0);
      assert ts[..|ts|] == ts;
    }
  }

  /** The ladder takes every expression of the grammar whose literals it reads to their end and whose prefix
      operators it knows, and builds the same tree. */
  lemma LadderFollows(t: Tree, ts: Tokens)
    requires Derives(LogicalOr, t, ts) && Constant(t)
    ensures Ladder(2, Seen(ts)) == Some(Parsed(t, []))
  {
    hide Climb, Derives, Constant, Ladder;
    ParserExact(t, ts);
    SameTree(0, ts);
    NoLowLevels(Seen(ts));
  }
}
