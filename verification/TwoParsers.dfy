/** Precedence climbing (`parse_binary_expr`) and the ladder of one function per level (`pp_eval_*`) build the
    same tree from the same tokens, and so agree on its value.

    A parse is None where the parser reports an error, or builds a node that is no integer constant. */
module TwoParsers {
  import opened Word64
  import opened Literals
  import opened ConstantTrees

  datatype Parsed = Parsed(tree: Tree, rest: Tokens)

  /** `get_binary_op_precedence` on these tokens; -1 for a token that is no binary operator. */
  function Precedence(t: Token): int {
    match t
    case Star => 11
    case Slash => 11
    case Percent => 11
    case Plus => 10
    case Minus => 10
    case ShiftL => 9
    case ShiftR => 9
    case Less => 8
    case LessEq => 8
    case Greater => 8
    case GreaterEq => 8
    case Equal => 7
    case NotEqual => 7
    case Amp => 6
    case Caret => 5
    case Bar => 4
    case AndAnd => 3
    case OrOr => 2
    case _ => -1
  }

  /** Above the tightest level there are only prefix operators and primaries. */
  const TOP: nat := 12

  function HeadPrecedence(ts: Tokens): int {
    if ts == [] then -1 else Precedence(ts[0])
  }

  predicate IsPrefix(t: Token) {
    t in {Plus, Minus, Bang, Tilde, Star, Amp}
  }

  predicate IsPPPrefix(t: Token) {
    t in {Plus, Minus, Bang, Tilde}
  }

  // ----- precedence climbing -----

  /** parse_unary and parse_primary. A primary followed by a parenthesis is a call, and so no constant. */
  function ClimbUnary(ts: Tokens): (r: Option<Parsed>)
    ensures r.Some? ==> |r.value.rest| < |ts|
    decreases |ts|, 0
  {
    if ts == [] then None
    else if IsPrefix(ts[0]) then
      var e := ClimbUnary(ts[1..]);
      if e.None? then None else Some(Parsed(Prefix(ts[0], e.value.tree), e.value.rest))
    else
      var primary :=
        match ts[0]
        case Lit(l) => Some(Parsed(Leaf(l), ts[1..]))
        case LParen =>
          var e := Climb(ts[1..], 0);
          if e.None? || e.value.rest == [] || e.value.rest[0] != RParen then None
          else Some(Parsed(e.value.tree, e.value.rest[1..]))
        case _ => None;
      if primary.Some? && primary.value.rest != [] && primary.value.rest[0] == LParen then None else primary
  }

  /** parse_binary_expr. */
  function Climb(ts: Tokens, min: nat): (r: Option<Parsed>)
    ensures r.Some? ==> |r.value.rest| < |ts|
    decreases |ts|, 2
  {
    var left := ClimbUnary(ts);
    if left.None? then None else ClimbOn(left.value.tree, left.value.rest, min)
  }

  /** The loop of parse_binary_expr: operators that bind at least as tightly as `min`. */
  function ClimbOn(left: Tree, ts: Tokens, min: nat): (r: Option<Parsed>)
    ensures r.Some? ==> |r.value.rest| <= |ts|
    decreases |ts|, 1
  {
    var p := HeadPrecedence(ts);
    if p < min then Some(Parsed(left, ts))
    else
      var right := Climb(ts[1..], p + 1);
      if right.None? then None else ClimbOn(Infix(ts[0], left, right.value.tree), right.value.rest, min)
  }

  // ----- the ladder -----

  /** The tokens of the compiler as the ladder comes to see them: behind a literal that it leaves in the middle
      there is nothing it could go on with. */
  function Seen(ts: Tokens): Tokens {
    if ts == [] then []
    else if ts[0].Lit? && Cut(ts[0].lit) then [ts[0], Stop]
    else [ts[0]] + Seen(ts[1..])
  }

  /** pp_eval_unary and pp_eval_primary. */
  function LadderUnary(ts: Tokens): (r: Option<Parsed>)
    ensures r.Some? ==> |r.value.rest| < |ts|
    decreases |ts|, 0
  {
    if ts == [] then None
    else if IsPPPrefix(ts[0]) then
      var e := LadderUnary(ts[1..]);
      if e.None? then None else Some(Parsed(Prefix(ts[0], e.value.tree), e.value.rest))
    else
      match ts[0]
      case Lit(l) => Some(Parsed(Leaf(l), ts[1..]))
      case LParen =>
        var e := Ladder(2, ts[1..]);
        if e.None? || e.value.rest == [] || e.value.rest[0] != RParen then None
        else Some(Parsed(e.value.tree, e.value.rest[1..]))
      case _ => None
  }

  /** The function of level `k`: 2 is `||`, 11 is `*`. Each calls the next for its operands. */
  function Ladder(k: nat, ts: Tokens): (r: Option<Parsed>)
    ensures r.Some? ==> |r.value.rest| < |ts|
    decreases |ts|, if k < TOP then TOP - k + 1 else 1, 1
  {
    if k >= TOP then LadderUnary(ts)
    else
      var left := Ladder(k + 1, ts);
      if left.None? then None else LadderOn(k, left.value.tree, left.value.rest)
  }

  /** The loop of a level: its own operators only. */
  function LadderOn(k: nat, left: Tree, ts: Tokens): (r: Option<Parsed>)
    ensures r.Some? ==> |r.value.rest| <= |ts|
    decreases |ts|, if k < TOP then TOP - k + 1 else 1, 0
  {
    if HeadPrecedence(ts) != k then Some(Parsed(left, ts))
    else
      var right := Ladder(k + 1, ts[1..]);
      if right.None? then None else LadderOn(k, Infix(ts[0], left, right.value.tree), right.value.rest)
  }

  // ----- climbing level by level -----

  /** What climbing leaves begins with no operator it could have taken. */
  lemma {:induction false} ClimbLeaves(left: Tree, ts: Tokens, min: nat)
    requires ClimbOn(left, ts, min).Some?
    ensures HeadPrecedence(ClimbOn(left, ts, min).value.rest) < min
    decreases |ts|
  {
    var p := HeadPrecedence(ts);
    if p >= min {
      var right := Climb(ts[1..], p + 1);
      ClimbLeaves(Infix(ts[0], left, right.value.tree), right.value.rest, min);
    }
  }

  lemma ClimbLeavesAll(ts: Tokens, min: nat)
    requires Climb(ts, min).Some?
    ensures HeadPrecedence(Climb(ts, min).value.rest) < min
  {
    var left := ClimbUnary(ts);
    ClimbLeaves(left.value.tree, left.value.rest, min);
  }

  /** Climbing from `min` is climbing from `min + 1` and then on with the operators of level `min`. */
  lemma {:induction false} ClimbInTwo(left: Tree, ts: Tokens, min: nat)
    ensures var a := ClimbOn(left, ts, min + 1);
            ClimbOn(left, ts, min) == if a.None? then None else ClimbOn(a.value.tree, a.value.rest, min)
    decreases |ts|
  {
    var p := HeadPrecedence(ts);
    if p > min {
      var right := Climb(ts[1..], p + 1);
      if right.Some? { ClimbInTwo(Infix(ts[0], left, right.value.tree), right.value.rest, min); }
    }
  }

  /** A constant tree has a constant left operand. */
  lemma {:induction false} ClimbKeepsConstant(left: Tree, ts: Tokens, min: nat)
    requires ClimbOn(left, ts, min).Some? && Constant(ClimbOn(left, ts, min).value.tree)
    ensures Constant(left)
    decreases |ts|
  {
    var p := HeadPrecedence(ts);
    if p >= min {
      var right := Climb(ts[1..], p + 1);
      ClimbKeepsConstant(Infix(ts[0], left, right.value.tree), right.value.rest, min);
    }
  }

  lemma PrecedenceBound(t: Token)
    ensures Precedence(t) < TOP
  {
  }

  lemma SeenHead(ts: Tokens)
    ensures HeadPrecedence(Seen(ts)) == HeadPrecedence(ts) && (Seen(ts) == [] <==> ts == [])
    ensures ts != [] ==> Seen(ts)[0] == ts[0]
    ensures ts != [] && !(ts[0].Lit? && Cut(ts[0].lit)) ==> Seen(ts)[1..] == Seen(ts[1..])
  {
  }

  /** What the ladder makes of a parse by climbing. */
  function SeenParse(r: Option<Parsed>): Option<Parsed> {
    if r.None? then None else Some(Parsed(r.value.tree, Seen(r.value.rest)))
  }

  /** On the operators of one level the two loops do the same. */
  lemma {:induction false} SameLoop(k: nat, left: Tree, ts: Tokens)
    requires k < TOP && HeadPrecedence(ts) <= k
    requires ClimbOn(left, ts, k).Some? && Constant(ClimbOn(left, ts, k).value.tree)
    ensures LadderOn(k, left, Seen(ts)) == SeenParse(ClimbOn(left, ts, k))
    decreases |ts|, 0
  {
    SeenHead(ts);
    if HeadPrecedence(ts) == k {
      var right := Climb(ts[1..], k + 1);
      var more := Infix(ts[0], left, right.value.tree);
      ClimbKeepsConstant(more, right.value.rest, k);
      ClimbLeavesAll(ts[1..], k + 1);
      SameTree(k + 1, ts[1..]);
      SameLoop(k, more, right.value.rest);
    }
  }

  lemma {:induction false} SameUnary(ts: Tokens)
    requires ClimbUnary(ts).Some? && Constant(ClimbUnary(ts).value.tree)
    ensures LadderUnary(Seen(ts)) == SeenParse(ClimbUnary(ts))
    decreases |ts|, 0
  {
    SeenHead(ts);
    if IsPrefix(ts[0]) {
      SameUnary(ts[1..]);
    } else if ts[0].LParen? {
      SameTree(0, ts[1..]);
      NoLowLevels(Seen(ts[1..]));
      SeenHead(Climb(ts[1..], 0).value.rest);
    }
  }

  /** Levels 0 and 1 have no operators. */
  lemma NoLowLevels(ts: Tokens)
    ensures Ladder(0, ts) == Ladder(2, ts)
  {
    var l := Ladder(2, ts);
    if l.Some? {
      assert LadderOn(1, l.value.tree, l.value.rest) == l;
      assert LadderOn(0, l.value.tree, l.value.rest) == l;
    }
  }

  /** Where climbing from level `k` yields a constant, the ladder from level `k` yields the same tree and
      leaves the same tokens. */
  lemma {:induction false} SameTree(k: nat, ts: Tokens)
    requires k <= TOP && Climb(ts, k).Some? && Constant(Climb(ts, k).value.tree)
    ensures Ladder(k, Seen(ts)) == SeenParse(Climb(ts, k))
    decreases |ts|, 1 + TOP - k
  {
    var left := ClimbUnary(ts).value;
    ClimbKeepsConstant(left.tree, left.rest, k);
    if k == TOP {
      if left.rest != [] { PrecedenceBound(left.rest[0]); }
      SameUnary(ts);
    } else {
      ClimbInTwo(left.tree, left.rest, k);
      var a := Climb(ts, k + 1).value;
      ClimbKeepsConstant(a.tree, a.rest, k);
      SameTree(k + 1, ts);
      ClimbLeavesAll(ts, k + 1);
      SameLoop(k, a.tree, a.rest);
    }
  }

  /** The two evaluators agree throughout on an expression, the ladder consuming the same tokens, reading the
      same numbers and giving every subexpression the value that the compiler's evaluator reports, if and only
      if its literals are ones that both read alike and no operand in it is out of range. */
  lemma EvaluatorsAgree(ts: Tokens)
    requires Climb(ts, 0).Some?
    ensures var t := Climb(ts, 0).value.tree;
            Ladder(2, Seen(ts)) == SeenParse(Climb(ts, 0)) && Agree(t) <==> Valued(t)
    ensures var t := Climb(ts, 0).value.tree; Valued(t) ==> Eval(t) == Some(PPValue(t))
  {
    var t := Climb(ts, 0).value.tree;
    SameValue(t);
    if Valued(t) {
      ValuedIsConstant(t);
      SameTree(0, ts);
      NoLowLevels(Seen(ts));
    }
  }

  function Number(digits: string): Token
    requires digits != "" && All(digits, 10)
  {
    Lit(Digits(digits, ""))
  }

  lemma SingleClimb(l: Literal)
    ensures Climb([Lit(l)], 0) == Some(Parsed(Leaf(l), [])) && Climb([Lit(l)], 12) == Climb([Lit(l)], 0)
    ensures Ladder(2, Seen([Lit(l)])) == Some(Parsed(Leaf(l), if Cut(l) then [Stop] else []))
  {
    var ts := [Lit(l)];
    assert ts[1..] == [];
    assert ClimbUnary(ts) == Some(Parsed(Leaf(l), []));
    hide Cut, LadderLength, Text;
    SingleLadder(l, 2);
  }

  lemma {:induction false} SingleLadder(l: Literal, k: nat)
    requires k <= TOP
    ensures Ladder(k, Seen([Lit(l)])) == Some(Parsed(Leaf(l), if Cut(l) then [Stop] else []))
    decreases TOP - k
  {
    hide Cut;
    var ts := Seen([Lit(l)]);
    assert ts[1..] == if Cut(l) then [Stop] else [];
    if k < TOP { SingleLadder(l, k + 1); }
  }

  /** Literals that the two read differently: `010` is 8 in `#if` and 10 for the compiler, `08` is 0 with the
      cursor left behind the zero. */
  lemma OctalDiffers()
    ensures var ts := [Number("010")];
            && Climb(ts, 0).Some? && Ladder(2, Seen(ts)) == Climb(ts, 0)
            && Eval(Climb(ts, 0).value.tree) == Some(10) && PPValue(Ladder(2, Seen(ts)).value.tree) == 8
    ensures var ts := [Number("08")];
            && Climb(ts, 0).Some? && Climb(ts, 0).value.rest == [] && Eval(Climb(ts, 0).value.tree) == Some(8)
            && Ladder(2, Seen(ts)).Some? && Ladder(2, Seen(ts)).value.rest == [Stop]
            && PPValue(Ladder(2, Seen(ts)).value.tree) == 0
  {
    ReadDifferently();
    hide Climb, Ladder, Seen, InBase, OctalFront;
    SingleClimb(Digits("010", ""));
    SingleClimb(Digits("08", ""));
  }

  /** Where an operand is out of range the ladder still yields a number: `1 / 0` is 0 in `#if`. */
  lemma DivisionByZeroDiffers()
    ensures var ts := [Number("1"), Slash, Number("0")];
            && Climb(ts, 0) == Some(Parsed(Infix(Slash, Leaf(Digits("1", "")), Leaf(Digits("0", ""))), []))
            && Eval(Climb(ts, 0).value.tree) == None
            && Ladder(2, Seen(ts)) == Climb(ts, 0) && PPValue(Ladder(2, Seen(ts)).value.tree) == 0
  {
    OneAndZero();
    var one: Literal, zero: Literal := Digits("1", ""), Digits("0", "");
    assert [Number("1"), Slash, Number("0")] == [Lit(one), Slash, Lit(zero)];
    hide *;
    QuotientParse(one, zero);
    QuotientByZero(Leaf(one), Leaf(zero));
  }

  lemma QuotientByZero(l: Tree, r: Tree)
    requires Eval(r) == Some(0) && PPValue(r) == 0
    ensures Eval(Infix(Slash, l, r)) == None && PPValue(Infix(Slash, l, r)) == 0
  {
  }

  lemma QuotientParse(a: Literal, b: Literal)
    requires !Cut(a) && !Cut(b)
    ensures var ts := [Lit(a), Slash, Lit(b)];
            Climb(ts, 0) == Some(Parsed(Infix(Slash, Leaf(a), Leaf(b)), [])) && Ladder(2, Seen(ts)) == Climb(ts, 0)
  {
    var ts, t := [Lit(a), Slash, Lit(b)], Infix(Slash, Leaf(a), Leaf(b));
    hide Cut;
    assert ts[1..] == [Slash, Lit(b)] && ts[1..][1..] == [Lit(b)];
    SingleClimb(b);
    assert ClimbUnary(ts) == Some(Parsed(Leaf(a), [Slash, Lit(b)]));
    assert ClimbOn(t, [], 0) == Some(Parsed(t, []));
    assert ClimbOn(Leaf(a), [Slash, Lit(b)], 0) == Some(Parsed(t, []));
    SameTree(0, ts);
    NoLowLevels(Seen(ts));
  }

  lemma OneAndZero()
    ensures var one, zero := Digits("1", ""), Digits("0", "");
            && !Cut(one)
            && !Cut(zero) && Eval(Leaf(zero)) == Some(0) && PPValue(Leaf(zero)) == 0
  {
    LiteralExact(Digits("0", ""));
    assert "1"[..0] == "" && "0"[..0] == "";
    assert InBase(10, "") == 0;
  }
}
