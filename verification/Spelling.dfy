/** How tokens are spelled in the text of an `#if` line, how the compiler's scanner finds them there, and what
    of them the evaluator's cursor comes to see. */
module Spelling {
  import opened Word64
  import opened Literals
  import opened ConstantTrees
  import opened TwoParsers

  function Spell(t: Token): (s: string)
    requires t != Stop
    ensures |s| > 0
  {
    match t
    case Lit(l) => Text(l)
    case LParen => "("
    case RParen => ")"
    case Plus => "+"
    case Minus => "-"
    case Bang => "!"
    case Tilde => "~"
    case Star => "*"
    case Slash => "/"
    case Percent => "%"
    case ShiftL => "<<"
    case ShiftR => ">>"
    case Less => "<"
    case LessEq => "<="
    case Greater => ">"
    case GreaterEq => ">="
    case Equal => "=="
    case NotEqual => "!="
    case Amp => "&"
    case Caret => "^"
    case Bar => "|"
    case AndAnd => "&&"
    case OrOr => "||"
  }

  /** Tokens spelled out, each followed by a space. */
  function Render(ts: Tokens): string
    requires Stop !in ts
  {
    if ts == [] then "" else Spell(ts[0]) + " " + Render(ts[1..])
  }

  predicate IsSpace(c: char) {
    c == ' ' || c == '\t' || c == '\r' || c == '\n'
  }

  function Skip(s: string): string {
    if s != "" && IsSpace(s[0]) then Skip(s[1..]) else s
  }

  function CharAt(s: string, i: nat): char {
    if i < |s| then s[i] else '\0'
  }

  // ----- the compiler's tokens -----

  /** A literal may end before the character `d`: the scanner would not take `d` for a part of it. */
  predicate LiteralEnds(l: Literal, d: char) {
    match l
    case Hex(_, _, suffix) => !IsSuffix(d) && (suffix == "" ==> !IsHex(d))
    case Digits(digits, suffix) =>
      && !IsSuffix(d)
      && (suffix == "" ==> !IsDigit(d) && d !in {'.', 'e', 'E', 'f', 'F'} && (digits == "0" ==> d !in {'x', 'X'}))
    case _ => true
  }

  /** A token may end before the character `d`: the two do not belong to a longer token. */
  predicate Ends(t: Token, d: char) {
    match t
    case Lit(l) => LiteralEnds(l, d)
    case Plus => d != '+' && d != '='
    case Minus => d != '-' && d != '=' && d != '>'
    case Bang => d != '='
    case Star => d != '='
    case Slash => d != '=' && d != '/' && d != '*'
    case Percent => d != '='
    case ShiftL => d != '='
    case ShiftR => d != '='
    case Less => d != '<' && d != '='
    case Greater => d != '>' && d != '='
    case Amp => d != '&' && d != '='
    case Caret => d != '='
    case Bar => d != '|' && d != '='
    case _ => true
  }

  /** The text spells the tokens, with any blanks around them, and none where the tokens cannot merge. */
  predicate Spells(text: string, ts: Tokens)
    decreases ts
  {
    var s := Skip(text);
    if ts == [] then s == ""
    else if ts[0] == Stop then false
    else
      var m := |Spell(ts[0])|;
      m <= |s| && s[..m] == Spell(ts[0]) && Ends(ts[0], CharAt(s, m)) && Spells(s[m..], ts[1..])
  }

  // ----- what the evaluator's cursor sees -----

  /** What the evaluator reads of a token: of a literal perhaps its beginning only. */
  function Read(t: Token): (s: string)
    requires t != Stop
    ensures |s| > 0
  {
    if t.Lit? then Text(t.lit)[..LadderLength(t.lit)] else Spell(t)
  }

  /** The evaluator stops reading before `d`. */
  predicate ReadEnds(t: Token, d: char) {
    if !t.Lit? then Ends(t, d)
    else if Cut(t.lit) then (if t.lit.Digits? then d in {'8', '9'} else IsHex(d))
    else
      match t.lit
      case Hex(_, _, suffix) => !IsSuffix(d) && (suffix == "" ==> !IsHex(d))
      case Digits(digits, suffix) =>
        !IsSuffix(d) && (suffix == "" ==> !IsDigit(d) && (digits == "0" ==> d !in {'x', 'X'}))
      case _ => true
  }

  /** The text shows the evaluator these tokens. */
  predicate Shows(text: string, ts: Tokens)
    decreases ts
  {
    var s := Skip(text);
    if ts == [] then s == ""
    else if ts[0] == Stop then s != "" && IsHex(s[0])
    else
      var m := |Read(ts[0])|;
      m <= |s| && s[..m] == Read(ts[0]) && ReadEnds(ts[0], CharAt(s, m)) && Shows(s[m..], ts[1..])
  }

  /** Behind what the evaluator reads of a literal that it leaves in the middle. */
  lemma CutChar(l: Literal)
    requires Cut(l)
    ensures var d := Text(l)[LadderLength(l)]; IsHex(d) && ReadEnds(Lit(l), d)
  {
    if l.Digits? {
      var n := OctalFront(l.digits);
      assert Text(l)[n] == l.digits[n] && DigitOf(10, l.digits[n]);
    } else {
      assert Text(l)[3] == l.e[1];
      if |l.e| <= 3 && All(l.e, 8) {
        assert DigitOf(8, l.e[1]);
      } else {
        assert DigitOf(16, l.e[1..][0]);
      }
    }
  }

  /** Text that spells tokens for the compiler shows the evaluator what it can see of them. */
  lemma {:induction false} SpelledIsSeen(text: string, ts: Tokens)
    requires Spells(text, ts)
    ensures Shows(text, Seen(ts))
    decreases ts
  {
    if ts != [] {
      var s, t := Skip(text), ts[0];
      var m := |Spell(t)|;
      hide Spell, Ends, LadderLength;
      if t.Lit? && Cut(t.lit) {
        var n := LadderLength(t.lit);
        CutChar(t.lit);
        assert s[..n] == s[..m][..n] && s[n] == s[..m][n];
        assert Skip(s[n..]) == s[n..];
        assert Seen(ts)[1..] == [Stop];
        LiteralSpelled(t);
      } else {
        SpelledIsSeen(s[m..], ts[1..]);
        assert Seen(ts)[1..] == Seen(ts[1..]);
        WholeRead(t, CharAt(s, m));
      }
    }
  }

  lemma LiteralSpelled(t: Token)
    requires t.Lit?
    ensures Spell(t) == Text(t.lit) && Read(t) == Text(t.lit)[..LadderLength(t.lit)]
  {
  }

  lemma WholeRead(t: Token, d: char)
    requires t != Stop && !(t.Lit? && Cut(t.lit)) && Ends(t, d)
    ensures Read(t) == Spell(t) && ReadEnds(t, d)
  {
  }

  /** The cursor at `p` stands before the tokens `ts`, perhaps with blanks between. */
  predicate At(text: string, p: nat, ts: Tokens) {
    p <= |text| && Shows(text[p..], ts)
  }

  /** The cursor stands at no blank. */
  predicate AtChar(text: string, p: nat) {
    p < |text| ==> !IsSpace(text[p])
  }

  /** The two characters at a cursor that stands right before `ts`: the first of the token, and its second or
      what may stand behind it. */
  predicate Stands(ts: Tokens, c: char, d: char) {
    if ts == [] then c == '\0'
    else if ts[0] == Stop then IsHex(c)
    else
      var s := Read(ts[0]);
      c == s[0] && if |s| > 1 then d == s[1] else ReadEnds(ts[0], d)
  }

  lemma {:induction false} SkipTwice(s: string)
    ensures Skip(Skip(s)) == Skip(s)
    decreases |s|
  {
    if s != "" && IsSpace(s[0]) { SkipTwice(s[1..]); }
  }

  lemma Skipped(text: string, ts: Tokens)
    ensures Shows(Skip(text), ts) <==> Shows(text, ts)
  {
    SkipTwice(text);
  }

  /** Moving over blanks keeps the cursor before the same tokens. */
  lemma SkippedAt(text: string, p: nat, q: nat, ts: Tokens)
    requires p <= q <= |text| && text[q..] == Skip(text[p..])
    ensures At(text, q, ts) <==> At(text, p, ts)
  {
    Skipped(text[p..], ts);
  }

  /** The first token and what may follow it, seen from a cursor at no blank. */
  lemma AtToken(text: string, p: nat, ts: Tokens)
    requires At(text, p, ts) && AtChar(text, p)
    ensures ts == [] ==> p == |text|
    ensures ts != [] && ts[0] == Stop ==> p < |text| && IsHex(text[p])
    ensures ts != [] && ts[0] != Stop ==>
              var m := |Read(ts[0])|;
              p + m <= |text| && text[p..p + m] == Read(ts[0]) && ReadEnds(ts[0], CharAt(text, p + m))
                && At(text, p + m, ts[1..])
  {
    var s := text[p..];
    assert Skip(s) == s;
    if ts != [] && ts[0] != Stop {
      var m := |Read(ts[0])|;
      assert s[..m] == text[p..p + m] && s[m..] == text[p + m..];
      assert m < |s| ==> s[m] == text[p + m];
    }
  }

  /** What the two characters at the cursor are when it stands right before `ts`. */
  lemma HeadChars(text: string, p: nat, ts: Tokens)
    requires At(text, p, ts) && AtChar(text, p)
    ensures Stands(ts, CharAt(text, p), CharAt(text, p + 1))
  {
    AtToken(text, p, ts);
    hide Read, ReadEnds, Shows, At;
    if ts != [] && ts[0] != Stop {
      var s := Read(ts[0]);
      assert text[p] == text[p..p + |s|][0];
      if |s| > 1 { assert text[p + 1] == text[p..p + |s|][1]; }
    }
  }

  lemma LiteralFirst(t: Token)
    requires t.Lit?
    ensures IsDigit(Read(t)[0]) || Read(t)[0] == '\''
    ensures t.lit.Hex? || t.lit.Digits? ==> IsDigit(Read(t)[0])
    ensures t.lit.Character? || t.lit.Escaped? ==> Read(t)[0] == '\''
  {
    if t.lit.Digits? { assert DigitOf(10, t.lit.digits[0]); }
  }

  /** Which operator of each level begins at the cursor, told from two characters as the evaluator does. */
  lemma OperatorTests(ts: Tokens, c: char, d: char)
    requires Stands(ts, c, d)
    ensures var head := if ts == [] then RParen else ts[0];
            && ((c == '*' && d != '=') <==> head == Star)
            && ((c == '/' && d != '=') <==> head == Slash)
            && ((c == '%' && d != '=') <==> head == Percent)
            && ((c == '+' && d != '+' && d != '=') <==> head == Plus)
            && ((c == '-' && d != '-' && d != '=' && d != '>') <==> head == Minus)
            && ((c == '<' && d == '<') <==> head == ShiftL)
            && ((c == '>' && d == '>') <==> head == ShiftR)
            && ((c == '<' && d == '=') <==> head == LessEq)
            && ((c == '>' && d == '=') <==> head == GreaterEq)
            && ((c == '<' && d != '=' && d != '<') <==> head == Less)
            && ((c == '>' && d != '=' && d != '>') <==> head == Greater)
            && ((c == '=' && d == '=') <==> head == Equal)
            && ((c == '!' && d == '=') <==> head == NotEqual)
            && ((c == '&' && d != '&' && d != '=') <==> head == Amp)
            && ((c == '^' && d != '=') <==> head == Caret)
            && ((c == '|' && d != '|' && d != '=') <==> head == Bar)
            && ((c == '&' && d == '&') <==> head == AndAnd)
            && ((c == '|' && d == '|') <==> head == OrOr)
  {
    if ts != [] && ts[0].Lit? {
      LiteralFirst(ts[0]);
      hide Read, ReadEnds;
    } else {
      hide Text, LadderLength, LiteralEnds;
    }
  }

  lemma PrefixTests(ts: Tokens, c: char, d: char)
    requires Stands(ts, c, d)
    ensures var head := if ts == [] then RParen else ts[0];
            && (c == '!' <==> head == Bang || head == NotEqual)
            && (c == '~' <==> head == Tilde) && (c == '+' <==> head == Plus) && (c == '-' <==> head == Minus)
            && (c == '(' <==> head == LParen) && (c == ')' <==> ts != [] && head == RParen)
            && (head.Lit? && (head.lit.Character? || head.lit.Escaped?) ==> c == '\'')
            && (head.Lit? && (head.lit.Hex? || head.lit.Digits?) ==> IsDigit(c))
  {
    if ts != [] && ts[0].Lit? {
      LiteralFirst(ts[0]);
      hide Read, ReadEnds;
    } else {
      hide Text, LadderLength, LiteralEnds;
    }
  }

  // ----- every token string has a spelling -----

  lemma SpelledFirst(t: Token)
    requires t != Stop
    ensures !IsSpace(Spell(t)[0]) && Ends(t, ' ')
  {
  }

  /** Tokens spelled out with a blank behind each are a spelling of them. */
  lemma {:induction false} RenderSpells(ts: Tokens)
    requires Stop !in ts
    ensures Spells(Render(ts), ts)
    ensures Spells(" " + Render(ts), ts)
  {
    var text := Render(ts);
    assert Skip(" " + text) == Skip(text) by { assert (" " + text)[1..] == text; }
    if ts != [] {
      RenderSpells(ts[1..]);
      RenderedToken(ts);
    }
  }

  lemma Joined(s: string, rest: string)
    requires s != "" && !IsSpace(s[0])
    ensures var text := s + " " + rest;
            Skip(text) == text && text[..|s|] == s && text[|s|..] == " " + rest && CharAt(text, |s|) == ' '
  {
    assert (s + " " + rest)[0] == s[0];
  }

  lemma RenderedToken(ts: Tokens)
    requires ts != [] && Stop !in ts
    ensures var s, text := Spell(ts[0]), Render(ts);
            && Skip(text) == text && |s| <= |text| && text[..|s|] == s && text[|s|..] == " " + Render(ts[1..])
            && CharAt(text, |s|) == ' ' && Ends(ts[0], ' ')
  {
    SpelledFirst(ts[0]);
    var s, rest := Spell(ts[0]), Render(ts[1..]);
    assert Render(ts) == s + " " + rest;
    hide *;
    Joined(s, rest);
  }

  /** Blanks may stand before a token, and a token may follow the one before it at once if that one ends there. */
  lemma JoinedSpells(t: Token, ts: Tokens, text: string)
    requires t != Stop && Spells(text, ts) && Ends(t, CharAt(text, 0))
    ensures Spells(Spell(t) + text, [t] + ts)
    ensures Spells(" " + text, ts) && Spells("\t" + text, ts)
  {
    var s := Spell(t) + text;
    assert s[..|Spell(t)|] == Spell(t) && s[|Spell(t)|..] == text;
    SpelledFirst(t);
    assert (" " + text)[1..] == text && ("\t" + text)[1..] == text;
    assert ([t] + ts)[1..] == ts;
  }

  /** No blank is needed between a number and an operator or parenthesis, nor behind one. */
  lemma Tight(a: string, b: string, op: Token)
    requires a != "" && b != "" && All(a, 10) && All(b, 10) && IsInfix(op)
    ensures Spells("(" + (a + (Spell(op) + (b + ")"))),
                   [LParen, Lit(Digits(a, "")), op, Lit(Digits(b, "")), RParen])
  {
    var l, r: Literal := Digits(a, ""), Digits(b, "");
    assert a[0] == Text(l)[0] && DigitOf(10, a[0]) && DigitOf(10, b[0]);
    assert Text(l) == a && Text(r) == b by { assert a + "" == a && b + "" == b; }
    assert Spells("", []);
    JoinedSpells(RParen, [], "");
    assert ")" + "" == ")" && [RParen] + [] == [RParen];
    JoinedSpells(Lit(r), [RParen], ")");
    var t1 := b + ")";
    assert t1[0] == b[0];
    OperatorEnds(op, b[0]);
    JoinedSpells(op, [Lit(r), RParen], t1);
    var t2 := Spell(op) + t1;
    assert t2[0] == Spell(op)[0];
    DigitsEnd(op, a);
    JoinedSpells(Lit(l), [op, Lit(r), RParen], t2);
    JoinedSpells(LParen, [Lit(l), op, Lit(r), RParen], a + t2);
  }

  lemma OperatorEnds(op: Token, d: char)
    requires IsInfix(op) && IsDigit(d)
    ensures op != Stop && Ends(op, d)
  {
  }

  lemma DigitsEnd(op: Token, a: string)
    requires IsInfix(op) && a != "" && All(a, 10)
    ensures Ends(Lit(Digits(a, "")), Spell(op)[0])
  {
  }
}
