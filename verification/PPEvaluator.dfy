/** The `#if` evaluator as it runs: a cursor over the text of the line (`PPEval`). The ten functions of the
    ladder, which differ only in their operators, are one method with the level as a parameter. */
module PPEvaluator {
  import opened Word64
  import opened Literals
  import opened ConstantTrees
  import opened TwoParsers
  import opened Spelling
  import opened Grammar
  import opened ConstantMeaning

  class PPEval {
    const text: string
    var p: nat

    constructor (text: string)
      ensures this.text == text && p == 0
    {
      this.text := text;
      p := 0;
    }

    method SkipSpace()
      requires p <= |text|
      modifies this`p
      ensures old(p) <= p <= |text| && AtChar(text, p)
      ensures forall ts :: At(text, p, ts) <==> At(text, old(p), ts)
    {
      hide Shows;
      while p < |text| && IsSpace(text[p])
        invariant old(p) <= p <= |text| && Skip(text[p..]) == Skip(text[old(p)..])
      {
        assert text[p..][1..] == text[p + 1..];
        p := p + 1;
      }
      assert text[p..] == Skip(text[old(p)..]);
      hide At;
      forall ts ensures At(text, p, ts) <==> At(text, old(p), ts) { SkippedAt(text, old(p), p, ts); }
    }

    /** What a method of level `k` called before the tokens `ts` has to do. Nothing is known of other text. */
    ghost predicate Answers(k: nat, ts: Option<Tokens>, v: Word)
      reads this
    {
      ts.Some? && Ladder(k, ts.value).Some? ==>
        var r := Ladder(k, ts.value).value;
        v == PPValue(r.tree) && At(text, p, r.rest)
    }

    ghost predicate Before(ts: Option<Tokens>)
      reads this
    {
      p <= |text| && (ts.Some? ==> At(text, p, ts.value))
    }

    /** The binary operator of level `k` at the cursor, which moves behind it. */
    method TakeOperator(k: nat, ghost ts: Option<Tokens>) returns (op: Option<Token>)
      requires 2 <= k < TOP && Before(ts) && AtChar(text, p)
      modifies this`p
      ensures old(p) <= p <= |text| && (op.Some? ==> p > old(p) && Precedence(op.value) == k)
          && (op.None? ==> p == old(p))
      ensures ts.Some? ==>
                && (HeadPrecedence(ts.value) == k <==> op.Some?)
                && (op.Some? ==> op.value == ts.value[0] && At(text, p, ts.value[1..]))
                && (op.None? ==> At(text, p, ts.value))
    {
      var c, d := CharAt(text, p), CharAt(text, p + 1);
      op := OperatorOf(k, c, d);
      if ts.Some? { OperatorFound(text, p, k, ts.value); }
      if op.Some? { p := p + |Spell(op.value)|; }
    }

    /** A level: its operands are those of the next, its operators are taken from left to right. */
    method Level(k: nat, ghost ts: Option<Tokens>) returns (left: Word)
      requires 2 <= k <= TOP && Before(ts)
      modifies this`p
      decreases |text| - p, TOP - k, 2
      ensures old(p) <= p <= |text| && Answers(k, ts, left)
    {
      hide Ladder, LadderOn, LadderUnary, PPValue, PPInfix, At, OperatorOf, Shows;
      if k == TOP {
        left := Unary(ts);
        return;
      }
      ghost var known := ts.Some? && Ladder(k, ts.value).Some?;
      if known { LadderBegins(k, ts.value); }
      left := Level(k + 1, ts);
      ghost var now: Tokens, tree := [], Leaf(Digits("0", ""));
      if known {
        var r := Ladder(k + 1, ts.value).value;
        now, tree := r.rest, r.tree;
      }
      while true
        invariant old(p) <= p <= |text|
        invariant known ==> LadderOn(k, tree, now) == Ladder(k, ts.value) && left == PPValue(tree) && At(text, p, now)
        decreases |text| - p
      {
        SkipSpace();
        if known { LadderGoesOn(k, tree, now); }
        var op := TakeOperator(k, if known then Some(now) else None);
        if op.None? { break; }
        var right := Level(k + 1, if known then Some(now[1..]) else None);
        left := PPInfix(op.value, left, right);
        if known {
          var r := Ladder(k + 1, now[1..]).value;
          InfixValue(now[0], tree, r.tree);
          tree, now := Infix(now[0], tree, r.tree), r.rest;
        }
      }
    }

    /** Prefix operators, then a primary. */
    method Unary(ghost ts: Option<Tokens>) returns (v: Word)
      requires Before(ts)
      modifies this`p
      decreases |text| - p, 0, 1
      ensures old(p) <= p <= |text| && Answers(TOP, ts, v)
    {
      hide Read, Wrap, Ladder, PPValue, PPPrefix, At, Shows, Stands, ReadEnds, PrefixOf, IsPPPrefix;
      SkipSpace();
      var c := CharAt(text, p);
      ghost var known := ts.Some? && Ladder(TOP, ts.value).Some?;
      if known { PrefixSeen(text, p, ts.value); }
      if PrefixChar(c) {
        p := p + 1;
        var a := Unary(if known then Some(ts.value[1..]) else None);
        if known { PrefixValue(ts.value[0], Ladder(TOP, ts.value[1..]).value.tree); }
        v := PPPrefix(PrefixOf(c), a);
      } else {
        v := Primary(ts);
      }
    }

    /** A parenthesised expression or a literal; anything else is skipped and counts as 0. */
    method Primary(ghost ts: Option<Tokens>) returns (v: Word)
      requires Before(ts) && AtChar(text, p)
      requires ts.Some? && Ladder(TOP, ts.value).Some? ==> ts.value != [] && !IsPPPrefix(ts.value[0])
      modifies this`p
      decreases |text| - p, 0, 0
      ensures old(p) <= p <= |text| && Answers(TOP, ts, v)
    {
      hide At, Shows, Stays, Ladder, LadderOn, LadderUnary, Wrap, PPValue, LadderNumber, LadderLength, Scanned;
      var c := CharAt(text, p);
      ghost var known := ts.Some? && Ladder(TOP, ts.value).Some?;
      if known { PrimaryHead(text, p, ts.value); }
      if c == '(' {
        p := p + 1;
        v := Level(2, if known then Some(ts.value[1..]) else None);
        v := Close(v, if known then Some(Ladder(2, ts.value[1..]).value.rest) else None);
      } else if c == '\'' {
        v := CharacterLiteral(if known then Some(ts.value[0].lit) else None);
        if known { LeafValue(ts.value[0].lit); }
      } else if IsDigit(c) {
        v := Number(if known then Some(ts.value[0].lit) else None);
        if known { LeafValue(ts.value[0].lit); }
      } else {
        v := 0;
        if p < |text| { p := p + 1; }
      }
    }

    /** The closing parenthesis, if it is there. */
    method Close(inside: Word, ghost rest: Option<Tokens>) returns (v: Word)
      requires p <= |text| && (rest.Some? ==> rest.value != [] && rest.value[0] == RParen && At(text, p, rest.value))
      modifies this`p
      ensures old(p) <= p <= |text| && v == inside
      ensures rest.Some? ==> At(text, p, rest.value[1..])
    {
      hide At, Shows, Stands, Read, ReadEnds;
      v := inside;
      SkipSpace();
      if rest.Some? {
        HeadChars(text, p, rest.value);
        PrefixTests(rest.value, CharAt(text, p), CharAt(text, p + 1));
        AtToken(text, p, rest.value);
        ReadOne(RParen);
      }
      if CharAt(text, p) == ')' { p := p + 1; }
    }

    /** A character in quotes; `\n`, `\t` and `\0` are known, any other escaped character is itself. */
    method CharacterLiteral(ghost l: Option<Literal>) returns (v: Word)
      requires p < |text| && text[p] == '\''
      requires l.Some? ==> (l.value.Character? || l.value.Escaped?) && Stays(text, p, l.value)
      modifies this`p
      ensures old(p) < p <= |text|
      ensures l.Some? ==> v == Wrap(LadderNumber(l.value)) && p == old(p) + LadderLength(l.value)
    {
      if l.Some? { CharacterParts(text, p, l.value); }
      hide Stays, LadderLength, LadderNumber, Text, Wrap;
      p := p + 1;
      var n: int;
      if CharAt(text, p) == '\\' {
        p := p + 1;
        var c := CharAt(text, p);
        n := if c == 'n' then 10 else if c == 't' then 9 else if c == '0' then 0 else c as int;
      } else {
        n := CharAt(text, p) as int;
      }
      v := Wrap(n);
      if p < |text| { p := p + 1; }
      if CharAt(text, p) == '\'' { p := p + 1; }
    }

    /** The digits from here on, as long as they are ones of the base, wrapped to 64 bits digit by digit:
        the three loops for hexadecimal, octal and decimal numbers. */
    method ReadDigits(base: nat, ghost start: nat) returns (v: Word)
      requires base in {8, 10, 16} && start <= p <= |text|
      requires All(text[start..p], base) && InBase(base, text[start..p]) == 0
      modifies this`p
      ensures old(p) <= p <= |text| && All(text[start..p], base) && !DigitOf(base, CharAt(text, p))
      ensures v == Wrap(InBase(base, text[start..p]))
    {
      hide Wrap, InBase, DigitValue, DigitOf;
      NulIsNoDigit(base);
      v := 0;
      WrapZero();
      while p < |text| && DigitOf(base, text[p])
        invariant old(p) <= p <= |text| && All(text[start..p], base)
        invariant v == Wrap(InBase(base, text[start..p]))
      {
        DigitNext(base, text, start, p);
        WrapStep(base, InBase(base, text[start..p]), DigitValue(text[p]));
        v := Wrap(v as int * base + DigitValue(text[p]));
        p := p + 1;
      }
    }

    method SkipSuffix()
      requires p <= |text|
      modifies this`p
      ensures old(p) <= p <= |text| && AllSuffix(text[old(p)..p]) && !IsSuffix(CharAt(text, p))
    {
      while p < |text| && IsSuffix(text[p])
        invariant old(p) <= p <= |text| && AllSuffix(text[old(p)..p])
      {
        assert text[old(p)..p + 1] == text[old(p)..p] + [text[p]];
        p := p + 1;
      }
    }

    /** A number: hexadecimal behind `0x`, octal behind another zero, decimal otherwise; and a suffix. */
    method Number(ghost l: Option<Literal>) returns (v: Word)
      requires p < |text| && IsDigit(text[p])
      requires l.Some? ==> (l.value.Hex? || l.value.Digits?) && Stays(text, p, l.value)
      modifies this`p
      ensures old(p) < p <= |text|
      ensures l.Some? ==> v == Wrap(LadderNumber(l.value)) && p == old(p) + LadderLength(l.value)
    {
      hide Wrap, InBase, LadderNumber, Text, LadderLength, Stays, OctalFront, All, AllSuffix, DigitOf, IsSuffix;
      ghost var start := p;
      ghost var base: nat := 10;
      if l.Some? { NumberBegins(text, p, l.value); }
      OneZero(text, p);
      if text[p] == '0' && (CharAt(text, p + 1) == 'x' || CharAt(text, p + 1) == 'X') {
        p := p + 2;
        start, base := p, 16;
        NoDigits(text, p);
        v := ReadDigits(16, p);
      } else if text[p] == '0' {
        p := p + 1;
        base := 8;
        v := ReadDigits(8, start);
      } else {
        NoDigits(text, p);
        v := ReadDigits(10, p);
        FirstDigit(text, start, p);
      }
      ghost var stop := p;
      SkipSuffix();
      if l.Some? { NumberEnds(text, old(p), l.value, base, start, stop, p); }
    }
  }

  // ----- literals in the text -----

  /** The text at `p` begins with what the evaluator reads of the literal, and goes on as it should. */
  predicate Stays(text: string, p: nat, l: Literal) {
    var m := LadderLength(l);
    p + m <= |text| && text[p..p + m] == Text(l)[..m] && ReadEnds(Lit(l), CharAt(text, p + m))
  }

  lemma PrefixValue(op: Token, tree: Tree)
    ensures PPValue(Prefix(op, tree)) == PPPrefix(op, PPValue(tree))
  {
  }

  lemma WrapZero()
    ensures Wrap(0) == 0
  {
  }

  lemma NulIsNoDigit(base: nat)
    ensures !DigitOf(base, '\0')
  {
  }

  lemma NoDigits(text: string, p: nat)
    requires p <= |text|
    ensures forall base: nat :: All(text[p..p], base) && InBase(base, text[p..p]) == 0
  {
  }

  lemma OneZero(text: string, p: nat)
    requires p < |text|
    ensures text[p] == '0' ==> All(text[p..p + 1], 8) && InBase(8, text[p..p + 1]) == 0
  {
    assert text[p..p + 1][..0] == "";
  }

  /** A decimal digit is read. */
  lemma FirstDigit(text: string, start: nat, p: nat)
    requires start < |text| && IsDigit(text[start]) && start <= p <= |text| && !DigitOf(10, CharAt(text, p))
    ensures p > start
  {
  }

  lemma CharacterParts(text: string, p: nat, l: Literal)
    requires (l.Character? || l.Escaped?) && Stays(text, p, l)
    ensures l.Character? ==>
              && p + 3 <= |text| && text[p + 1] == l.c && text[p + 2] == '\'' && l.c != '\\'
              && LadderLength(l) == 3 && LadderNumber(l) == l.c as int
    ensures l.Escaped? ==>
              && p + 3 <= |text| && text[p + 1] == '\\' && text[p + 2] == l.e[0]
              && LadderLength(l) == (if CharAt(text, p + 3) == '\'' then 4 else 3)
              && (CharAt(text, p + 3) == '\'' ==> p + 4 <= |text|)
              && LadderNumber(l) == (if l.e[0] == 'n' then 10 else if l.e[0] == 't' then 9
                                     else if l.e[0] == '0' then 0 else l.e[0] as int)
  {
    var m := LadderLength(l);
    var s := text[p..p + m];
    assert forall i :: 0 <= i < m ==> text[p + i] == s[i];
    assert s[1] == Text(l)[1] && s[2] == Text(l)[2];
    if l.Escaped? && |l.e| == 1 { assert s[3] == Text(l)[3]; }
  }

  /** Digits, and what stands behind them, as the evaluator reads them. */
  predicate Parts(text: string, start: nat, base: nat, digits: string, suffix: string) {
    && All(digits, base) && AllSuffix(suffix)
    && start + |digits| + |suffix| <= |text|
    && text[start..start + |digits|] == digits
    && text[start + |digits|..start + |digits| + |suffix|] == suffix
    && !DigitOf(base, CharAt(text, start + |digits|)) && !IsSuffix(CharAt(text, start + |digits| + |suffix|))
  }

  /** Where the loops stop. */
  lemma PartsEnd(text: string, start: nat, base: nat, digits: string, suffix: string, stop: nat, end: nat)
    requires Parts(text, start, base, digits, suffix) && start <= stop <= end <= |text|
    requires All(text[start..stop], base) && !DigitOf(base, CharAt(text, stop))
    requires AllSuffix(text[stop..end]) && !IsSuffix(CharAt(text, end))
    ensures stop == start + |digits| && end == stop + |suffix|
  {
    hide DigitOf, IsSuffix;
    NotBefore(text, start, stop, start + |digits|, base);
    NotBefore(text, start, start + |digits|, stop, base);
    SuffixNotBefore(text, stop, end, stop + |suffix|);
    SuffixNotBefore(text, stop, stop + |suffix|, end);
  }

  /** A run of digits does not go past a character that is none. */
  lemma NotBefore(text: string, start: nat, a: nat, b: nat, base: nat)
    requires start <= a <= |text| && start <= b <= |text|
    requires All(text[start..b], base) && !DigitOf(base, CharAt(text, a))
    ensures b <= a
  {
    hide DigitOf;
    forall i | start <= i < b ensures DigitOf(base, text[i]) { assert text[i] == text[start..b][i - start]; }
  }

  lemma SuffixNotBefore(text: string, start: nat, a: nat, b: nat)
    requires start <= a <= |text| && start <= b <= |text|
    requires AllSuffix(text[start..b]) && !IsSuffix(CharAt(text, a))
    ensures b <= a
  {
    hide IsSuffix;
    forall i | start <= i < b ensures IsSuffix(text[i]) { assert text[i] == text[start..b][i - start]; }
  }

  /** What the evaluator tells from the first two characters. */
  lemma NumberBegins(text: string, p: nat, l: Literal)
    requires p < |text| && (l.Hex? || l.Digits?) && Stays(text, p, l)
    ensures l.Hex? <==> text[p] == '0' && (CharAt(text, p + 1) == 'x' || CharAt(text, p + 1) == 'X')
    ensures l.Hex? ==> p + 2 <= |text|
    ensures l.Digits? ==> text[p] == l.digits[0]
  {
    var m := LadderLength(l);
    var s := text[p..p + m];
    assert forall i :: 0 <= i < m ==> text[p + i] == s[i];
    if l.Hex? {
      assert s[0] == '0' && s[1] == l.x;
    } else {
      assert s[0] == l.digits[0];
      if m > 1 { assert s[1] == Text(l)[1]; }
      if |l.digits| > 1 { assert DigitOf(10, l.digits[1]); }
    }
  }

  lemma Slices(text: string, p: nat, a: string, b: string)
    requires p + |a| + |b| <= |text| && text[p..p + |a| + |b|] == a + b
    ensures text[p..p + |a|] == a && text[p + |a|..p + |a| + |b|] == b
    ensures b != "" ==> CharAt(text, p + |a|) == b[0]
  {
    var s := text[p..p + |a| + |b|];
    assert text[p..p + |a|] == s[..|a|] && text[p + |a|..p + |a| + |b|] == s[|a|..];
    assert b != "" ==> text[p + |a|] == s[|a|];
  }

  /** A number whose digits and suffix stand in the text. */
  lemma NumberParts(text: string, p: nat, base: nat, digits: string, suffix: string)
    requires All(digits, base) && AllSuffix(suffix) && base in {8, 10, 16}
    requires p + |digits| + |suffix| <= |text| && text[p..p + |digits| + |suffix|] == digits + suffix
    requires var d := CharAt(text, p + |digits| + |suffix|);
             !IsSuffix(d) && (suffix == "" ==> !DigitOf(base, d))
    ensures Parts(text, p, base, digits, suffix)
  {
    Slices(text, p, digits, suffix);
    if suffix != "" { SuffixIsNoDigit(base, suffix[0]); }
    hide DigitOf, IsSuffix;
  }

  lemma SuffixIsNoDigit(base: nat, c: char)
    requires IsSuffix(c) && base in {8, 10, 16}
    ensures !DigitOf(base, c)
  {
  }

  lemma HexParts(text: string, p: nat, l: Literal)
    requires l.Hex? && Stays(text, p, l)
    ensures Parts(text, p + 2, 16, l.digits, l.suffix)
    ensures LadderNumber(l) == InBase(16, l.digits) && LadderLength(l) == 2 + |l.digits| + |l.suffix|
  {
    var front, back := "0" + [l.x], l.digits + l.suffix;
    assert LadderLength(l) == 2 + |back| && Text(l)[..2 + |back|] == front + back;
    var d := CharAt(text, p + 2 + |back|);
    assert !IsSuffix(d) && (l.suffix == "" ==> !DigitOf(16, d));
    hide *;
    Slices(text, p, front, back);
    NumberParts(text, p + 2, 16, l.digits, l.suffix);
  }

  lemma DigitsParts(text: string, p: nat, l: Literal)
    requires l.Digits? && Stays(text, p, l) && !Cut(l)
    ensures var base := if ReadsOctal(l) then 8 else 10;
            && Parts(text, p, base, l.digits, l.suffix)
            && LadderNumber(l) == InBase(base, l.digits) && LadderLength(l) == |l.digits| + |l.suffix|
  {
    var base, m := if ReadsOctal(l) then 8 else 10, |l.digits| + |l.suffix|;
    assert l.digits[..|l.digits|] == l.digits;
    if ReadsOctal(l) { OctalEnds(l); }
    assert LadderLength(l) == m && All(l.digits, base) && LadderNumber(l) == InBase(base, l.digits);
    assert Text(l)[..m] == l.digits + l.suffix;
    var d := CharAt(text, p + m);
    assert !IsSuffix(d) && (l.suffix == "" ==> !DigitOf(base, d));
    hide *;
    NumberParts(text, p, base, l.digits, l.suffix);
  }

  /** All digits of a number that is read whole as octal are octal. */
  lemma OctalEnds(l: Literal)
    requires ReadsOctal(l) && !Cut(l)
    ensures OctalFront(l.digits) == |l.digits| && All(l.digits, 8)
  {
    assert l.digits[..|l.digits|] == l.digits;
  }

  lemma CutParts(text: string, p: nat, l: Literal)
    requires l.Digits? && Stays(text, p, l) && Cut(l)
    ensures var n := OctalFront(l.digits);
            && ReadsOctal(l) && Parts(text, p, 8, l.digits[..n], "") && LadderNumber(l) == InBase(8, l.digits[..n])
            && LadderLength(l) == n
  {
    var n := LadderLength(l);
    assert ReadsOctal(l) && n == OctalFront(l.digits) < |l.digits|;
    assert text[p..p + n] == l.digits[..n];
    assert |l.digits[..n]| == n && text[p + n..p + n] == "";
    hide InBase, OctalFront;
  }

  lemma NumberEnds(text: string, p: nat, l: Literal, base: nat, start: nat, stop: nat, end: nat)
    requires p < |text| && (l.Hex? || l.Digits?) && Stays(text, p, l)
    requires if l.Hex? then base == 16 && start == p + 2
             else start == p && base == if l.digits[0] == '0' then 8 else 10
    requires start <= stop <= end <= |text|
    requires All(text[start..stop], base) && !DigitOf(base, CharAt(text, stop))
    requires AllSuffix(text[stop..end]) && !IsSuffix(CharAt(text, end))
    ensures LadderNumber(l) == InBase(base, text[start..stop]) && end == p + LadderLength(l)
  {
    hide Stays, Parts, LadderNumber, LadderLength, All, AllSuffix, DigitOf, IsSuffix, InBase, OctalFront;
    if l.Hex? {
      HexParts(text, p, l);
      PartsEnd(text, start, base, l.digits, l.suffix, stop, end);
      PartsAre(text, start, base, l.digits, l.suffix);
    } else {
      if Cut(l) { CutParts(text, p, l); } else { DigitsParts(text, p, l); }
      var digits := if Cut(l) then l.digits[..OctalFront(l.digits)] else l.digits;
      var suffix := if Cut(l) then "" else l.suffix;
      PartsEnd(text, start, base, digits, suffix, stop, end);
      PartsAre(text, start, base, digits, suffix);
    }
  }

  lemma PartsAre(text: string, start: nat, base: nat, digits: string, suffix: string)
    requires Parts(text, start, base, digits, suffix)
    ensures start + |digits| <= |text| && text[start..start + |digits|] == digits
  {
  }

  function OperatorOf(k: nat, c: char, d: char): (op: Option<Token>)
    ensures op.Some? ==> Precedence(op.value) == k
  {
    if k == 11 then
      if c == '*' && d != '=' then Some(Star)
      else if c == '/' && d != '=' then Some(Slash)
      else if c == '%' && d != '=' then Some(Percent) else None
    else if k == 10 then
      if c == '+' && d != '+' && d != '=' then Some(Plus)
      else if c == '-' && d != '-' && d != '=' && d != '>' then Some(Minus) else None
    else if k == 9 then
      if c == '<' && d == '<' then Some(ShiftL) else if c == '>' && d == '>' then Some(ShiftR) else None
    else if k == 8 then
      if c == '<' && d == '=' then Some(LessEq)
      else if c == '>' && d == '=' then Some(GreaterEq)
      else if c == '<' && d != '<' then Some(Less)
      else if c == '>' && d != '>' then Some(Greater) else None
    else if k == 7 then
      if c == '=' && d == '=' then Some(Equal) else if c == '!' && d == '=' then Some(NotEqual) else None
    else if k == 6 then
      if c == '&' && d != '&' && d != '=' then Some(Amp) else None
    else if k == 5 then
      if c == '^' && d != '=' then Some(Caret) else None
    else if k == 4 then
      if c == '|' && d != '|' && d != '=' then Some(Bar) else None
    else if k == 3 then
      if c == '&' && d == '&' then Some(AndAnd) else None
    else if k == 2 then
      if c == '|' && d == '|' then Some(OrOr) else None
    else None
  }

  /** The operators that each level looks for. */
  lemma OperatorOfHead(k: nat, c: char, d: char, head: Token)
    requires 2 <= k < TOP
    requires && ((c == '*' && d != '=') <==> head == Star) && ((c == '/' && d != '=') <==> head == Slash)
             && ((c == '%' && d != '=') <==> head == Percent)
             && ((c == '+' && d != '+' && d != '=') <==> head == Plus)
             && ((c == '-' && d != '-' && d != '=' && d != '>') <==> head == Minus)
             && ((c == '<' && d == '<') <==> head == ShiftL) && ((c == '>' && d == '>') <==> head == ShiftR)
             && ((c == '<' && d == '=') <==> head == LessEq) && ((c == '>' && d == '=') <==> head == GreaterEq)
             && ((c == '<' && d != '=' && d != '<') <==> head == Less)
             && ((c == '>' && d != '=' && d != '>') <==> head == Greater)
             && ((c == '=' && d == '=') <==> head == Equal) && ((c == '!' && d == '=') <==> head == NotEqual)
             && ((c == '&' && d != '&' && d != '=') <==> head == Amp) && ((c == '^' && d != '=') <==> head == Caret)
             && ((c == '|' && d != '|' && d != '=') <==> head == Bar)
             && ((c == '&' && d == '&') <==> head == AndAnd) && ((c == '|' && d == '|') <==> head == OrOr)
    ensures var op := OperatorOf(k, c, d);
            (Precedence(head) == k <==> op.Some?) && (op.Some? ==> op.value == head)
  {
  }

  lemma OperatorIsHead(k: nat, ts: Tokens, c: char, d: char)
    requires 2 <= k < TOP && Stands(ts, c, d)
    ensures var op := OperatorOf(k, c, d);
            (HeadPrecedence(ts) == k <==> op.Some?) && (op.Some? ==> ts != [] && op.value == ts[0])
  {
    hide Stands, Ladder;
    OperatorTests(ts, c, d);
    OperatorOfHead(k, c, d, if ts != [] then ts[0] else RParen);
  }

  /** The operator told from two characters is the token there, when it is one of the level. */
  lemma OperatorFound(text: string, p: nat, k: nat, ts: Tokens)
    requires 2 <= k < TOP && At(text, p, ts) && AtChar(text, p)
    ensures var op := OperatorOf(k, CharAt(text, p), CharAt(text, p + 1));
            && (HeadPrecedence(ts) == k <==> op.Some?)
            && (op.Some? ==> op.value == ts[0] && p + |Spell(op.value)| <= |text|
                             && At(text, p + |Spell(op.value)|, ts[1..]))
  {
    hide *;
    HeadChars(text, p, ts);
    OperatorIsHead(k, ts, CharAt(text, p), CharAt(text, p + 1));
    AtToken(text, p, ts);
    if ts != [] { OperatorRead(ts[0]); }
  }

  lemma LadderBegins(k: nat, ts: Tokens)
    requires k < TOP && Ladder(k, ts).Some?
    ensures var r := Ladder(k + 1, ts); r.Some? && LadderOn(k, r.value.tree, r.value.rest) == Ladder(k, ts)
  {
  }

  lemma LadderGoesOn(k: nat, tree: Tree, ts: Tokens)
    requires k < TOP && LadderOn(k, tree, ts).Some?
    ensures HeadPrecedence(ts) != k ==> LadderOn(k, tree, ts) == Some(Parsed(tree, ts))
    ensures HeadPrecedence(ts) == k ==>
              var r := Ladder(k + 1, ts[1..]);
              ts != [] && r.Some? && LadderOn(k, Infix(ts[0], tree, r.value.tree), r.value.rest)
                == LadderOn(k, tree, ts)
  {
  }

  lemma InfixValue(op: Token, l: Tree, r: Tree)
    ensures PPValue(Infix(op, l, r)) == PPInfix(op, PPValue(l), PPValue(r))
  {
  }

  lemma OperatorRead(t: Token)
    ensures Precedence(t) >= 2 ==> t != Stop && Read(t) == Spell(t)
  {
  }

  /** What stands at the cursor where a primary begins. */
  lemma PrimaryHead(text: string, p: nat, ts: Tokens)
    requires At(text, p, ts) && AtChar(text, p) && Ladder(TOP, ts).Some? && (ts != [] ==> !IsPPPrefix(ts[0]))
    ensures ts != [] && p < |text| && (ts[0].Lit? || ts[0].LParen?)
    ensures ts[0].LParen? ==>
              var r := Ladder(2, ts[1..]);
              && text[p] == '(' && At(text, p + 1, ts[1..])
              && r.Some? && r.value.rest != [] && r.value.rest[0] == RParen
              && Ladder(TOP, ts) == Some(Parsed(r.value.tree, r.value.rest[1..]))
    ensures ts[0].Lit? ==>
              var l := ts[0].lit;
              && Stays(text, p, l) && At(text, p + LadderLength(l), ts[1..])
              && Ladder(TOP, ts) == Some(Parsed(Leaf(l), ts[1..]))
              && (l.Hex? || l.Digits? ==> IsDigit(text[p]) && text[p] != '(' && text[p] != '\'')
              && (l.Character? || l.Escaped? ==> text[p] == '\'')
  {
    hide *;
    HeadChars(text, p, ts);
    PrefixTests(ts, CharAt(text, p), CharAt(text, p + 1));
    CharIs(text, p);
    UnaryHead(ts);
    AtToken(text, p, ts);
    ReadOne(ts[0]);
    if ts[0].Lit? {
      ReadLiteral(text, p, ts[0]);
      LiteralKind(ts[0].lit, text[p]);
    }
  }

  lemma CharIs(text: string, p: nat)
    ensures p < |text| ==> CharAt(text, p) == text[p]
  {
  }

  lemma LiteralKind(l: Literal, c: char)
    ensures l.Hex? || l.Digits? || l.Character? || l.Escaped?
    ensures IsDigit(c) ==> c != '(' && c != '\''
  {
  }

  lemma UnaryHead(ts: Tokens)
    requires Ladder(TOP, ts).Some?
    ensures ts != [] && (IsPPPrefix(ts[0]) || ts[0].Lit? || ts[0].LParen?)
    ensures IsPPPrefix(ts[0]) ==>
              var r := Ladder(TOP, ts[1..]);
              |Read(ts[0])| == 1 && r.Some? && Ladder(TOP, ts)
                == Some(Parsed(Prefix(ts[0], r.value.tree), r.value.rest))
    ensures ts[0].Lit? ==> Ladder(TOP, ts) == Some(Parsed(Leaf(ts[0].lit), ts[1..]))
    ensures ts[0].LParen? ==>
              var r := Ladder(2, ts[1..]);
              && r.Some? && r.value.rest != [] && r.value.rest[0] == RParen
              && Ladder(TOP, ts) == Some(Parsed(r.value.tree, r.value.rest[1..]))
  {
  }

  predicate PrefixChar(c: char) {
    c == '!' || c == '~' || c == '+' || c == '-'
  }

  function PrefixOf(c: char): Token {
    if c == '!' then Bang else if c == '~' then Tilde else if c == '+' then Plus else Minus
  }

  /** The character at the cursor tells a prefix operator from a primary. */
  lemma PrefixSeen(text: string, p: nat, ts: Tokens)
    requires At(text, p, ts) && AtChar(text, p) && Ladder(TOP, ts).Some?
    ensures ts != [] && (PrefixChar(CharAt(text, p)) <==> IsPPPrefix(ts[0]))
    ensures PrefixChar(CharAt(text, p)) ==>
              var r := Ladder(TOP, ts[1..]);
              && ts[0] == PrefixOf(CharAt(text, p)) && p < |text| && At(text, p + 1, ts[1..])
              && r.Some? && Ladder(TOP, ts) == Some(Parsed(Prefix(ts[0], r.value.tree), r.value.rest))
  {
    UnaryHead(ts);
    HeadChars(text, p, ts);
    PrefixTests(ts, CharAt(text, p), CharAt(text, p + 1));
    AtToken(text, p, ts);
    hide Read, Ladder, At, Shows, Stands, ReadEnds;
  }

  lemma ReadOne(t: Token)
    ensures t.LParen? || t.RParen? ==> |Read(t)| == 1
  {
  }

  lemma ReadLiteral(text: string, p: nat, t: Token)
    requires t.Lit? && p + |Read(t)| <= |text| && text[p..p + |Read(t)|] == Read(t)
    requires ReadEnds(t, CharAt(text, p + |Read(t)|))
    ensures Stays(text, p, t.lit) && |Read(t)| == LadderLength(t.lit)
  {
    hide ReadEnds, Text;
  }

  lemma LeafValue(l: Literal)
    ensures PPValue(Leaf(l)) == Wrap(LadderNumber(l))
  {
  }

  lemma DigitNext(base: nat, text: string, start: nat, p: nat)
    requires start <= p < |text| && All(text[start..p], base) && DigitOf(base, text[p])
    ensures InBase(base, text[start..p + 1]) == base * InBase(base, text[start..p]) + DigitValue(text[p])
    ensures All(text[start..p + 1], base)
  {
    var s := text[start..p + 1];
    assert s[..|s| - 1] == text[start..p];
    hide DigitOf;
    assert forall i :: 0 <= i < |s| - 1 ==> s[i] == text[start..p][i];
  }

  lemma WrapStep(base: nat, x: nat, d: nat)
    ensures Wrap(Wrap(x) as int * base + d) == Wrap(base * x + d)
  {
    var k := (Wrap(x) as int - x) / TWO64;
    assert Wrap(x) as int == x + k * TWO64;
    assert Wrap(x) as int * base == base * x + (base * k) * TWO64;
    WrapCongruent(Wrap(x) as int * base + d, base * x + d, base * k);
  }

  /** The value of an `#if` line, whatever the blanks in it. When its tokens are an expression of the grammar, with
      literals that are read to their end, it is a value of the tree that the grammar gives. When in addition
      both evaluators read the literals alike and the operands are in range, it is the one that the compiler
      would compute. Whenever the ladder comes to an end, it is what the ladder means. */
  method Condition(text: string, ghost ts: Tokens) returns (v: Word)
    ensures forall t :: Spells(text, ts) && Derives(LogicalOr, t, ts) && Constant(t) ==> Denotes(t, v)
    ensures Spells(text, ts) && Climb(ts, 0).Some? && Valued(Climb(ts, 0).value.tree) ==>
              Some(v) == Eval(Climb(ts, 0).value.tree)
    ensures Spells(text, ts) && Ladder(2, Seen(ts)).Some? ==> v == PPValue(Ladder(2, Seen(ts)).value.tree)
  {
    hide Climb, Eval, Valued, Ladder, Spells, At, Seen, Derives, Constant, Denotes, PPValue;
    var pe := new PPEval(text);
    ghost var tokens := if Spells(text, ts) then Some(Seen(ts)) else None;
    if Spells(text, ts) { SpelledIsSeen(text, ts); }
    CursorBefore(pe, tokens);
    v := pe.Level(2, tokens);
    if tokens.Some? {
      LevelAnswers(pe, ts, v);
      forall t | Derives(LogicalOr, t, ts) && Constant(t) ensures Denotes(t, v) {
        LadderFollows(t, ts);
        PPValueDenoted(t);
      }
    }
  }

  lemma CursorBefore(pe: PPEval, ts: Option<Tokens>)
    requires pe.p == 0 && (ts.Some? ==> Shows(pe.text, ts.value))
    ensures pe.Before(ts)
  {
    assert pe.text[0..] == pe.text;
  }

  lemma LevelAnswers(pe: PPEval, ts: Tokens, v: Word)
    requires pe.Answers(2, Some(Seen(ts)), v)
    ensures Climb(ts, 0).Some? && Valued(Climb(ts, 0).value.tree) ==> Some(v) == Eval(Climb(ts, 0).value.tree)
    ensures Ladder(2, Seen(ts)).Some? ==> v == PPValue(Ladder(2, Seen(ts)).value.tree)
  {
    if Climb(ts, 0).Some? { EvaluatorsAgree(ts); }
  }
}
