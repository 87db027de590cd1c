/** Integer and character literals, as the compiler's scanner reads them (`scan_number`, `scan_char_literal`)
    and as the `#if` evaluator does (`pp_eval_primary`). The evaluator takes a leading zero for octal, knows
    three escapes, and may stop in the middle of what the scanner takes for one literal. */
module Literals {
  predicate IsDigit(c: char) {
    '0' <= c <= '9'
  }

  predicate IsOctal(c: char) {
    '0' <= c <= '7'
  }

  predicate IsHex(c: char) {
    IsDigit(c) || 'a' <= c <= 'f' || 'A' <= c <= 'F'
  }

  predicate IsSuffix(c: char) {
    c in {'u', 'U', 'l', 'L'}
  }

  predicate DigitOf(base: nat, c: char) {
    if base == 16 then IsHex(c) else if base == 10 then IsDigit(c) else IsOctal(c)
  }

  function DigitValue(c: char): nat {
    if IsDigit(c) then c as nat - '0' as nat
    else if 'a' <= c <= 'f' then c as nat - 'a' as nat + 10
    else if 'A' <= c <= 'F' then c as nat - 'A' as nat + 10 else 0
  }

  /** The number that digits spell. */
  function InBase(base: nat, s: string): nat {
    if s == "" then 0 else base * InBase(base, s[..|s| - 1]) + DigitValue(s[|s| - 1])
  }

  predicate IsByte(c: char) {
    0 < c as int < 256
  }

  /** What the scanner takes for one literal; `Escaped` holds what stands behind the backslash. */
  datatype Spelling =
    | Hex(x: char, digits: string, suffix: string)
    | Digits(digits: string, suffix: string)
    | Character(c: char)
    | Escaped(e: string)

  predicate All(s: string, base: nat) {
    forall i :: 0 <= i < |s| ==> DigitOf(base, s[i])
  }

  predicate AllSuffix(s: string) {
    forall i :: 0 <= i < |s| ==> IsSuffix(s[i])
  }

  predicate Scanned(l: Spelling) {
    match l
    case Hex(x, digits, suffix) => x in {'x', 'X'} && All(digits, 16) && AllSuffix(suffix)
    case Digits(digits, suffix) => digits != "" && All(digits, 10) && AllSuffix(suffix)
    case Character(c) => IsByte(c) && c != '\\'
    case Escaped(e) =>
      && e != "" && IsByte(e[0])
      && (|e| == 1 || (|e| <= 3 && All(e, 8)) || (e[0] == 'x' && All(e[1..], 16)))
  }

  type Literal = l: Spelling | Scanned(l) witness Digits("0", "")

  function Text(l: Literal): (s: string)
    ensures s != "" && (IsDigit(s[0]) || s[0] == '\'')
  {
    match l
    case Hex(x, digits, suffix) => "0" + [x] + digits + suffix
    case Digits(digits, suffix) => digits + suffix
    case Character(c) => "'" + [c] + "'"
    case Escaped(e) => "'\\" + e + "'"
  }

  // ----- the compiler's scanner -----

  /** Conversion to a signed 8-bit character. */
  function AsChar(n: nat): int {
    if n % 256 < 128 then n % 256 else n % 256 - 256
  }

  function EscapeValue(e: string): int
    requires e != ""
  {
    if IsOctal(e[0]) then AsChar(InBase(8, e))
    else
      match e[0]
      case 'x' => AsChar(InBase(16, e[1..]))
      case 'a' => 7
      case 'b' => 8
      case 'f' => 12
      case 'n' => 10
      case 'r' => 13
      case 't' => 9
      case 'v' => 11
      case c => AsChar(c as nat)
  }

  function CompilerNumber(l: Literal): int {
    match l
    case Hex(_, digits, _) => InBase(16, digits)
    case Digits(digits, _) => InBase(10, digits)
    case Character(c) => AsChar(c as nat)
    case Escaped(e) => EscapeValue(e)
  }

  // ----- the `#if` evaluator -----

  /** How many digits at the front are octal. */
  function OctalFront(s: string): (n: nat)
    ensures n <= |s| && All(s[..n], 8) && (n < |s| ==> !IsOctal(s[n]))
  {
    if s != "" && IsOctal(s[0]) then
      var n := OctalFront(s[1..]);
      assert forall i :: 0 < i < 1 + n ==> s[i] == s[1..][..n][i - 1];
      1 + n
    else 0
  }

  /** The evaluator reads a number with a leading zero as octal. */
  predicate ReadsOctal(l: Literal) {
    l.Digits? && l.digits[0] == '0'
  }

  /** How many characters of the literal the evaluator reads. */
  function LadderLength(l: Literal): (n: nat)
    ensures 0 < n <= |Text(l)|
  {
    if ReadsOctal(l) && OctalFront(l.digits) < |l.digits| then
      assert l.digits[..1] == "0";
      OctalFront(l.digits)
    else if l.Escaped? && |l.e| > 1 then 3
    else |Text(l)|
  }

  function LadderNumber(l: Literal): int {
    match l
    case Hex(_, digits, _) => InBase(16, digits)
    case Digits(digits, _) => if ReadsOctal(l) then InBase(8, digits[..OctalFront(digits)]) else InBase(10, digits)
    case Character(c) => c as int
    case Escaped(e) => if e[0] == 'n' then 10 else if e[0] == 't' then 9 else if e[0] == '0' then 0 else e[0] as int
  }

  /** The evaluator stops in the middle of the literal. */
  predicate Cut(l: Literal) {
    LadderLength(l) < |Text(l)|
  }

  // ----- what the numbers are -----

  /** `s` writes `n` with digits of this base, the last digit first. */
  predicate Writes(base: nat, s: string, n: nat)
    requires 0 < base <= 16
  {
    if s == "" then n == 0
    else
      && (s[|s| - 1] == "0123456789abcdef"[n % base] || s[|s| - 1] == "0123456789ABCDEF"[n % base])
      && Writes(base, s[..|s| - 1], n / base)
  }

  lemma DigitWritten(base: nat, c: char, k: nat)
    requires base in {8, 10, 16} && DigitOf(base, c) && k < base
    ensures DigitValue(c) < base
    ensures DigitValue(c) == k <==> c == "0123456789abcdef"[k] || c == "0123456789ABCDEF"[k]
  {
  }

  lemma LastDigit(base: nat, q: nat, d: nat)
    requires base in {8, 10, 16} && d < base
    ensures (base * q + d) % base == d && (base * q + d) / base == q
  {
    assert (8 * q + d) / 8 == q || d >= 8;
    assert (10 * q + d) / 10 == q || d >= 10;
    assert (16 * q + d) / 16 == q || d >= 16;
  }

  /** A numeral is the number that it writes. */
  lemma {:induction false} InBaseExact(base: nat, s: string, n: nat)
    requires base in {8, 10, 16} && All(s, base)
    ensures InBase(base, s) == n <==> Writes(base, s, n)
  {
    if s != "" {
      var front, c := s[..|s| - 1], s[|s| - 1];
      assert DigitOf(base, c);
      InBaseExact(base, front, n / base);
      DigitWritten(base, c, n % base);
      LastDigit(base, InBase(base, front), DigitValue(c));
    }
  }

  /** Numbers: the scanner takes decimal digits whatever they begin with, the evaluator takes octal ones behind
      a leading zero, as many as there are. */
  lemma NumbersExact(l: Literal, n: nat)
    ensures l.Hex? ==> (CompilerNumber(l) == n <==> Writes(16, l.digits, n))
                       && (LadderNumber(l) == n <==> Writes(16, l.digits, n))
    ensures l.Digits? ==> (CompilerNumber(l) == n <==> Writes(10, l.digits, n))
    ensures l.Digits? && l.digits[0] != '0' ==> (LadderNumber(l) == n <==> Writes(10, l.digits, n))
    ensures l.Digits? && l.digits[0] == '0' ==>
              exists i :: 0 < i <= |l.digits| && All(l.digits[..i], 8) && (i < |l.digits| ==> l.digits[i] in {'8', '9'})
                          && (LadderNumber(l) == n <==> Writes(8, l.digits[..i], n))
  {
    if l.Hex? {
      InBaseExact(16, l.digits, n);
    } else if l.Digits? {
      InBaseExact(10, l.digits, n);
      if l.digits[0] == '0' {
        var i := OctalFront(l.digits);
        InBaseExact(8, l.digits[..i], n);
        assert i < |l.digits| ==> DigitOf(10, l.digits[i]);
      }
    }
  }

  lemma Signed(n: nat)
    ensures -128 <= AsChar(n) < 128 && (AsChar(n) - n) % 256 == 0
  {
  }

  /** Characters are signed for the scanner and unsigned for the evaluator. */
  lemma CharactersExact(l: Literal)
    requires l.Character?
    ensures LadderNumber(l) == l.c as int
    ensures -128 <= CompilerNumber(l) < 128 && (CompilerNumber(l) - l.c as int) % 256 == 0
  {
    hide AsChar;
    Signed(l.c as nat);
  }

  /** Octal and hexadecimal escapes of the scanner. */
  lemma NumericEscapes(l: Literal)
    requires l.Escaped? && (IsOctal(l.e[0]) || l.e[0] == 'x')
    ensures var base, digits := if l.e[0] == 'x' then 16 else 8, if l.e[0] == 'x' then l.e[1..] else l.e;
            exists n: nat :: Writes(base, digits, n)
                             && -128 <= CompilerNumber(l) < 128 && (CompilerNumber(l) - n) % 256 == 0
    ensures LadderNumber(l) == if l.e[0] == '0' then 0 else l.e[0] as int
  {
    hide InBase, AsChar, Writes;
    if IsOctal(l.e[0]) {
      InBaseExact(8, l.e, InBase(8, l.e));
      Signed(InBase(8, l.e));
    } else {
      InBaseExact(16, l.e[1..], InBase(16, l.e[1..]));
      Signed(InBase(16, l.e[1..]));
    }
  }

  /** The other escapes: the scanner knows those of C, the evaluator three of them. */
  lemma SimpleEscapes(l: Literal)
    requires l.Escaped? && !IsOctal(l.e[0]) && l.e[0] != 'x'
    ensures l.e[0] == 'a' ==> CompilerNumber(l) == 7
    ensures l.e[0] == 'b' ==> CompilerNumber(l) == 8
    ensures l.e[0] == 't' ==> CompilerNumber(l) == 9
    ensures l.e[0] == 'n' ==> CompilerNumber(l) == 10
    ensures l.e[0] == 'v' ==> CompilerNumber(l) == 11
    ensures l.e[0] == 'f' ==> CompilerNumber(l) == 12
    ensures l.e[0] == 'r' ==> CompilerNumber(l) == 13
    ensures l.e[0] in {'\\', '\'', '"', '?'} ==> CompilerNumber(l) == l.e[0] as int
    ensures LadderNumber(l) == if l.e[0] == 'n' then 10 else if l.e[0] == 't' then 9 else l.e[0] as int
  {
  }

  // ----- which literals both read alike -----

  predicate Zeros(s: string) {
    forall i :: 0 <= i < |s| ==> s[i] == '0'
  }

  /** No leading zero, or nothing behind the zeros but one digit below 8; a character or an escape below 128
      that both know, or both take for itself. */
  predicate ReadAlike(l: Literal) {
    match l
    case Hex(_, _, _) => true
    case Digits(digits, _) =>
      digits[0] != '0' || (Zeros(digits[..|digits| - 1]) && IsOctal(digits[|digits| - 1]))
    case Character(c) => c as int < 128
    case Escaped(e) =>
      |e| == 1 && e[0] as int < 128 && e[0] !in {'1', '2', '3', '4', '5', '6', '7', 'a', 'b', 'f', 'r', 'v', 'x'}
  }

  lemma {:induction false} ZerosAreNothing(s: string)
    requires All(s, 10)
    ensures InBase(10, s) == 0 <==> Zeros(s)
    ensures InBase(8, s) <= InBase(10, s)
  {
    if s != "" {
      var front := s[..|s| - 1];
      ZerosAreNothing(front);
      if Zeros(front) && s[|s| - 1] == '0' {
        assert forall i :: 0 <= i < |s| - 1 ==> s[i] == front[i];
      }
    }
  }

  /** Read as octal and as decimal, digits behind a zero are the same number if and only if all but the last
      are zeros. */
  lemma OctalIsDecimal(s: string)
    requires s != "" && All(s, 10)
    ensures InBase(8, s) == InBase(10, s) <==> Zeros(s[..|s| - 1])
  {
    ZerosAreNothing(s[..|s| - 1]);
  }

  /** Both read the whole literal as the same number if and only if it is one of these. */
  lemma LiteralExact(l: Literal)
    ensures !Cut(l) && LadderNumber(l) == CompilerNumber(l) <==> ReadAlike(l)
  {
    match l
    case Hex(_, _, _) =>
    case Digits(digits, _) =>
      if digits[0] == '0' {
        OctalIsDecimal(digits);
        var n := OctalFront(digits);
        if n == |digits| {
          assert digits[..n] == digits && DigitOf(8, digits[..n][n - 1]);
        } else if n < |digits| - 1 {
          assert digits[n] == digits[..|digits| - 1][n];
        }
      }
    case Character(_) =>
    case Escaped(e) =>
      if |e| == 1 {
        assert InBase(8, e[..0]) == 0 && InBase(16, e[1..]) == 0;
      }
  }

  lemma {:induction false} PrefixIsLess(s: string, n: nat)
    requires n <= |s|
    ensures InBase(10, s[..n]) <= InBase(10, s)
    decreases |s|
  {
    if n < |s| {
      var front := s[..|s| - 1];
      PrefixIsLess(front, n);
      assert front[..n] == s[..n];
    } else {
      assert s[..n] == s;
    }
  }

  /** What the evaluator reads is never more than what the scanner reads of the same digits. */
  lemma LadderBound(l: Literal)
    ensures l.Hex? || l.Digits? ==> 0 <= LadderNumber(l) <= CompilerNumber(l)
    ensures l.Character? || l.Escaped? ==> 0 <= LadderNumber(l) < 256 && -128 <= CompilerNumber(l) < 128
  {
    if l.Digits? && ReadsOctal(l) {
      var n := OctalFront(l.digits);
      PrefixIsLess(l.digits, n);
      assert All(l.digits[..n], 10);
      ZerosAreNothing(l.digits[..n]);
    }
  }

  /** `010` is 8 in `#if` and 10 for the compiler; of `08` the evaluator reads the zero alone; `'\a'` is the
      letter in `#if` and 7 for the compiler. */
  lemma ReadDifferently()
    ensures var l := Digits("010", ""); !Cut(l) && LadderNumber(l) == 8 && CompilerNumber(l) == 10
    ensures var l := Digits("08", ""); LadderLength(l) == 1 && LadderNumber(l) == 0 && CompilerNumber(l) == 8
    ensures var l := Escaped("a"); !Cut(l) && LadderNumber(l) == 97 && CompilerNumber(l) == 7
  {
    assert "010"[..2] == "01" && "01"[..1] == "0" && "0"[..0] == "";
    assert InBase(8, "01") == 1 && InBase(10, "01") == 1;
    assert "08"[..1] == "0" && InBase(10, "0") == 0 && InBase(8, "0") == 0;
    assert "010"[1..] == "10" && "10"[1..] == "0" && "0"[1..] == "" && "08"[1..] == "8";
    assert OctalFront("0") == 1 && OctalFront("10") == 2 && OctalFront("010") == 3;
    assert "010"[..3] == "010";
    assert OctalFront("8") == 0 && OctalFront("08") == 1;
  }
}
