/** Instruction selection is right: each block of x86-64 instructions, run where the IR machine stands
    before an instruction, leads to where the IR machine stands behind it. */
module Selection {
  import opened Word64
  import opened IR
  import opened LoweredForm
  import opened Liveness
  import LinearScan
  import opened RegAlloc
  import opened X86
  import opened CodeGen
  import opened Residence

  lemma RunOne(w: World, x: Asm, m: Machine)
    ensures RunAll(w, [x], m) == Do(w, x, m)
    ensures RunAll(w, [], m) == Some(m)
  {
    if Do(w, x, m).Some? { assert [x][1..] == []; }
  }

  /** Appending one instruction. */
  lemma RunThen(w: World, xs: seq<Asm>, x: Asm, m: Machine)
    requires RunAll(w, xs, m).Some?
    ensures RunAll(w, xs + [x], m) == Do(w, x, RunAll(w, xs, m).value)
  {
    RunAppend(w, xs, [x], m);
    RunOne(w, x, RunAll(w, xs, m).value);
  }

  // ----- operands -----

  /** The location of operand `o` can be read and holds `w`. */
  ghost predicate OperandAt(u: Compilation, m: Machine, o: Opnd, w: Word) {
    match o
    case Imm(i) => w == i
    case Reg(v) => Holds(u, m, v, w) && (RegOf(u.a, v) == NONE ==> InFrame(m, OffsetOf(u.a, u.w.base, v)) && m.bp == 0)
  }

  lemma OperandReady(u: Compilation, k: nat, d: Data, m: Machine, o: Opnd)
    requires Good(u) && Related(u, k, d, m) && k < |u.code|
    requires RegsOf(o) <= Uses(u.code[k]) && Val(d.regs, o).Some?
    ensures OperandAt(u, m, o, Val(d.regs, o).value)
  {
    hide Good, StackIntact, RegsIntact;
    if o.Reg? {
      assert o.v in RegsOf(o);
      UsedIsLive(u.code, o.v, k);
      LiveInside(u, o.v, k);
      LocationOf(u, o.v);
    }
  }

  lemma OperandStays(u: Compilation, m: Machine, m1: Machine, o: Opnd, w: Word)
    requires OperandAt(u, m, o, w) && Scratched(m, m1)
    ensures OperandAt(u, m1, o, w)
  {
    if o.Reg? { ScratchedHolds(u, m, m1, o.v, w); }
  }

  /** Only `target` has changed, apart from the flags. */
  predicate Loaded(m: Machine, m1: Machine, target: Gpr, w: Word) {
    m1 == m.(gpr := m.gpr[target := w], flags := m1.flags)
  }

  lemma LoadRuns(u: Compilation, m: Machine, o: Opnd, target: Gpr, w: Word)
    requires OperandAt(u, m, o, w)
    ensures var r := RunAll(u.w, LoadTo(u.a, u.w.base, o, target), m);
            r.Some? && Loaded(m, r.value, target, w)
  {
    var xs := LoadTo(u.a, u.w.base, o, target);
    if xs == [] {
      assert m.gpr == m.gpr[target := w];
    } else {
      assert xs == [xs[0]];
      RunOne(u.w, xs[0], m);
    }
  }

  /** `xs` leaves `w` in register `r` and changes nothing but scratch registers. */
  ghost predicate Computes(u: Compilation, m: Machine, xs: seq<Asm>, r: Gpr, w: Word) {
    var m1 := RunAll(u.w, xs, m);
    m1.Some? && Scratched(m, m1.value) && r in m1.value.gpr && m1.value.gpr[r] == w
  }

  lemma LoadedScratched(m: Machine, m1: Machine, target: Gpr, w: Word)
    requires Loaded(m, m1, target, w) && Scratch(target)
    ensures Scratched(m, m1) && target in m1.gpr && m1.gpr[target] == w
  {
  }

  lemma ScratchedTwice(m: Machine, m1: Machine, m2: Machine)
    requires Scratched(m, m1) && Scratched(m1, m2)
    ensures Scratched(m, m2)
  {
  }

  lemma LoadComputes(u: Compilation, m: Machine, o: Opnd, target: Gpr, w: Word)
    requires OperandAt(u, m, o, w) && Scratch(target)
    ensures Computes(u, m, LoadTo(u.a, u.w.base, o, target), target, w)
  {
    LoadRuns(u, m, o, target, w);
    LoadedScratched(m, RunAll(u.w, LoadTo(u.a, u.w.base, o, target), m).value, target, w);
  }

  /** Both operands are in rax and rcx. */
  ghost predicate Both(u: Compilation, m: Machine, xs: seq<Asm>, a: Word, b: Word) {
    Computes(u, m, xs, RAX, a) && Computes(u, m, xs, RCX, b)
  }

  lemma LoadPair(u: Compilation, m: Machine, x: Opnd, y: Opnd, first: Gpr, second: Gpr, a: Word, b: Word)
    requires OperandAt(u, m, x, a) && OperandAt(u, m, y, b) && Scratch(first) && Scratch(second) && first != second
    ensures var xs := LoadTo(u.a, u.w.base, x, first) + LoadTo(u.a, u.w.base, y, second);
            Computes(u, m, xs, first, a) && Computes(u, m, xs, second, b)
  {
    hide *;
    var p, q := LoadTo(u.a, u.w.base, x, first), LoadTo(u.a, u.w.base, y, second);
    LoadRuns(u, m, x, first, a);
    var m1 := RunAll(u.w, p, m).value;
    LoadedScratched(m, m1, first, a);
    OperandStays(u, m, m1, y, b);
    LoadRuns(u, m1, y, second, b);
    var m2 := RunAll(u.w, q, m1).value;
    LoadedScratched(m1, m2, second, b);
    ScratchedTwice(m, m1, m2);
    RunAppend(u.w, p, q, m);
    LoadedKeeps(m1, m2, second, b, first);
    ComputesIs(u, m, p + q, first, a);
    ComputesIs(u, m, p + q, second, b);
  }

  lemma LoadedKeeps(m: Machine, m1: Machine, target: Gpr, w: Word, r: Gpr)
    requires Loaded(m, m1, target, w) && r != target && r in m.gpr
    ensures r in m1.gpr && m1.gpr[r] == m.gpr[r]
  {
  }

  lemma ComputesIs(u: Compilation, m: Machine, xs: seq<Asm>, r: Gpr, w: Word)
    ensures Computes(u, m, xs, r, w) <==>
              var m1 := RunAll(u.w, xs, m);
              m1.Some? && Scratched(m, m1.value) && r in m1.value.gpr && m1.value.gpr[r] == w
  {
  }

  // ----- arithmetic -----

  lemma NatQuotient(n: nat, d: nat)
    requires d > 0
    ensures 0 <= n / d <= n && (d >= 2 ==> 2 * (n / d) <= n)
  {
    var q := n / d;
    assert n == q * d + n % d;
    if d >= 2 { assert q * d >= q * 2; } else { assert d == 1; }
  }

  lemma QuotientOfWord(a: Word, b: Word)
    requires !DivTraps(a, b)
    ensures -TWO63 <= TruncDiv(a, b) < TWO63
  {
    var n: nat := if a >= 0 then a else -(a as int);
    var d: nat := if b > 0 then b else -(b as int);
    NatQuotient(n, d);
  }

  lemma SignExtendedDividend(a: Word)
    ensures (if a < 0 then -1 else 0) * TWO64 + Unsigned(a) == a
  {
  }

  lemma DivideExact(a: Word, b: Word)
    requires !DivTraps(a, b)
    ensures Quotient(if a < 0 then -1 else 0, a, b) == Some((TruncDiv(a, b), Wrap(TruncMod(a, b))))
    ensures Wrap(TruncDiv(a, b)) == TruncDiv(a, b)
  {
    hide TruncDiv, TruncMod;
    QuotientOfWord(a, b);
    SignExtendedDividend(a);
  }

  lemma ByteOfSet(w: Word, b: nat)
    requires b < 256
    ensures LowByte(PutByte(w, b)) == b
  {
    var n := Unsigned(w) - Unsigned(w) % 256 + b;
    assert n % 256 == b;
    assert 0 <= n < TWO64;
    assert Unsigned(Wrap(n)) == n;
  }

  lemma CountInLowByte(c: Word)
    ensures LowByte(c) % 64 == c % 64
  {
    assert Unsigned(c) % 64 == c % 64;
    assert Unsigned(c) % 256 % 64 == Unsigned(c) % 64;
  }

  lemma ShiftByLowByte(a: Word, c: Word)
    ensures ShiftLeft(a, LowByte(c)) == ShiftLeft(a, c) && ShiftRight(a, LowByte(c)) == ShiftRight(a, c)
  {
    CountInLowByte(c);
  }

  /** Instruction `x` computes `v` into `r`. */
  ghost predicate Gives(w: World, m: Machine, x: Asm, r: Gpr, v: Word) {
    Do(w, x, m).Some? && Loaded(m, Do(w, x, m).value, r, v)
  }

  /** Appending an instruction that computes into a scratch register. */
  lemma Chain(u: Compilation, m: Machine, xs: seq<Asm>, x: Asm, r: Gpr, v: Word, r0: Gpr, v0: Word)
    requires Computes(u, m, xs, r0, v0) && Scratch(r)
    requires Gives(u.w, RunAll(u.w, xs, m).value, x, r, v)
    ensures Computes(u, m, xs + [x], r, v)
    ensures r0 != r ==> Computes(u, m, xs + [x], r0, v0)
    ensures RunAll(u.w, xs + [x], m) == Do(u.w, x, RunAll(u.w, xs, m).value)
  {
    hide *;
    ComputesIs(u, m, xs, r0, v0);
    var m1 := RunAll(u.w, xs, m).value;
    RunThen(u.w, xs, x, m);
    GivesIs(u.w, m1, x, r, v);
    var m2 := Do(u.w, x, m1).value;
    LoadedScratched(m1, m2, r, v);
    ScratchedTwice(m, m1, m2);
    ComputesIs(u, m, xs + [x], r, v);
    ComputesIs(u, m, xs + [x], r0, v0);
    if r0 != r { LoadedKeeps(m1, m2, r, v, r0); }
  }

  lemma GivesIs(w: World, m: Machine, x: Asm, r: Gpr, v: Word)
    ensures Gives(w, m, x, r, v) <==> Do(w, x, m).Some? && Loaded(m, Do(w, x, m).value, r, v)
  {
  }

  lemma CombineGives(w: World, m: Machine, op: BinOp)
    requires RAX in m.gpr && RCX in m.gpr && Alu(op, m.gpr[RAX], m.gpr[RCX]).Some?
    ensures Gives(w, m, Combine(op), RAX, Alu(op, m.gpr[RAX], m.gpr[RCX]).value)
  {
  }

  lemma UnaryGives(w: World, m: Machine)
    requires RAX in m.gpr
    ensures var a := m.gpr[RAX];
            && Gives(w, m, Increment, RAX, Wrap(a as int + 1)) && Gives(w, m, Decrement, RAX, Wrap(a as int - 1))
            && Gives(w, m, SignExtend, RDX, if a < 0 then -1 else 0)
            && Gives(w, m, ZeroExtendByte, RAX, LowByte(a))
  {
    hide Wrap, LowByte;
    var a := m.gpr[RAX];
    assert Do(w, Increment, m) == Some(SetGprFlags(m, RAX, Wrap(a as int + 1)));
    assert Do(w, Decrement, m) == Some(SetGprFlags(m, RAX, Wrap(a as int - 1)));
    assert Do(w, SignExtend, m) == Some(SetGpr(m, RDX, if a < 0 then -1 else 0));
    assert Do(w, ZeroExtendByte, m) == Some(SetGpr(m, RAX, LowByte(a)));
    hide Do;
  }

  lemma ShiftGives(w: World, m: Machine, c: Word)
    requires RAX in m.gpr
    ensures var a := m.gpr[RAX];
            Gives(w, m, ShiftBy(true, c), RAX, ShiftLeft(a, c)) && Gives(w, m, ShiftBy(false, c), RAX, ShiftRight(a, c))
  {
    hide ShiftLeft, ShiftRight;
  }

  lemma ShiftClGives(w: World, m: Machine)
    requires RAX in m.gpr && RCX in m.gpr
    ensures Gives(w, m, ShiftByCl(true), RAX, ShiftLeft(m.gpr[RAX], m.gpr[RCX]))
    ensures Gives(w, m, ShiftByCl(false), RAX, ShiftRight(m.gpr[RAX], m.gpr[RCX]))
  {
    ShiftByLowByte(m.gpr[RAX], m.gpr[RCX]);
    hide ShiftLeft, ShiftRight, LowByte;
  }

  lemma CombineRuns(u: Compilation, m: Machine, xs: seq<Asm>, op: BinOp, a: Word, b: Word)
    requires Both(u, m, xs, a, b) && Alu(op, a, b).Some?
    ensures Computes(u, m, xs + [Combine(op)], RAX, Alu(op, a, b).value)
  {
    CombineGives(u.w, RunAll(u.w, xs, m).value, op);
    Chain(u, m, xs, Combine(op), RAX, Alu(op, a, b).value, RAX, a);
  }

  lemma UnaryRuns(u: Compilation, m: Machine, xs: seq<Asm>, a: Word, c: Word)
    requires Computes(u, m, xs, RAX, a)
    ensures Computes(u, m, xs + [Increment], RAX, Wrap(a as int + 1))
        && Computes(u, m, xs + [Decrement], RAX, Wrap(a as int - 1))
    ensures Computes(u, m, xs + [ShiftBy(true, c)], RAX, ShiftLeft(a, c))
        && Computes(u, m, xs + [ShiftBy(false, c)], RAX, ShiftRight(a, c))
  {
    hide *;
    ComputesIs(u, m, xs, RAX, a);
    UnaryGives(u.w, RunAll(u.w, xs, m).value);
    ShiftGives(u.w, RunAll(u.w, xs, m).value, c);
    ScratchNames();
    Chain(u, m, xs, Increment, RAX, Wrap(a as int + 1), RAX, a);
    Chain(u, m, xs, Decrement, RAX, Wrap(a as int - 1), RAX, a);
    Chain(u, m, xs, ShiftBy(true, c), RAX, ShiftLeft(a, c), RAX, a);
    Chain(u, m, xs, ShiftBy(false, c), RAX, ShiftRight(a, c), RAX, a);
  }

  lemma ScratchNames()
    ensures Scratch(RAX) && Scratch(RCX) && Scratch(RDX) && forall i :: 0 <= i < |ARG_REGS| ==> Scratch(ARG_REGS[i])
  {
  }

  lemma ShiftClRuns(u: Compilation, m: Machine, xs: seq<Asm>, a: Word, c: Word)
    requires Both(u, m, xs, a, c)
    ensures Computes(u, m, xs + [ShiftByCl(true)], RAX, ShiftLeft(a, c))
        && Computes(u, m, xs + [ShiftByCl(false)], RAX, ShiftRight(a, c))
  {
    hide ShiftLeft, ShiftRight, RunAll, Do;
    ShiftClGives(u.w, RunAll(u.w, xs, m).value);
    Chain(u, m, xs, ShiftByCl(true), RAX, ShiftLeft(a, c), RAX, a);
    Chain(u, m, xs, ShiftByCl(false), RAX, ShiftRight(a, c), RAX, a);
  }

  lemma DivideGives(w: World, m: Machine, a: Word, b: Word)
    requires RAX in m.gpr && RCX in m.gpr && RDX in m.gpr && m.gpr[RAX] == a && m.gpr[RCX] == b
        && m.gpr[RDX] == if a < 0 then -1 else 0
    requires !DivTraps(a, b)
    ensures Do(w, Divide, m) == Some(SetGprFlags(SetGpr(m, RAX, Wrap(TruncDiv(a, b))), RDX, Wrap(TruncMod(a, b))))
  {
    DivideExact(a, b);
    hide TruncDiv, TruncMod, Quotient, Wrap;
  }

  lemma MoveGives(w: World, m: Machine, src: Gpr, dst: Gpr)
    requires src in m.gpr
    ensures Gives(w, m, Move(src, dst), dst, m.gpr[src])
  {
  }

  /** Quotient and remainder arrive in scratch registers. */
  lemma Divided(u: Compilation, m: Machine, m1: Machine, xs: seq<Asm>, q: Word, r: Word)
    requires Scratched(m, m1) && RunAll(u.w, xs, m) == Some(SetGprFlags(SetGpr(m1, RAX, q), RDX, r))
    ensures Computes(u, m, xs, RAX, q) && Computes(u, m, xs, RDX, r)
  {
    hide RunAll;
  }

  lemma Divides(u: Compilation, m: Machine, xs: seq<Asm>, a: Word, b: Word)
    requires Both(u, m, xs, a, b) && !DivTraps(a, b)
    ensures Computes(u, m, xs + [SignExtend, Divide], RAX, Wrap(TruncDiv(a, b)))
    ensures Computes(u, m, xs + [SignExtend, Divide], RDX, Wrap(TruncMod(a, b)))
  {
    assert b != 0;
    hide *;
    BothIs(u, m, xs, a, b);
    ComputesIs(u, m, xs, RAX, a);
    var m1 := RunAll(u.w, xs, m).value;
    UnaryGives(u.w, m1);
    var sign: Word := if a < 0 then -1 else 0;
    ScratchNames();
    Chain(u, m, xs, SignExtend, RDX, sign, RAX, a);
    Chain(u, m, xs, SignExtend, RDX, sign, RCX, b);
    var ys := xs + [SignExtend];
    ComputesIs(u, m, ys, RDX, sign);
    ComputesIs(u, m, ys, RAX, a);
    ComputesIs(u, m, ys, RCX, b);
    DivideGives(u.w, RunAll(u.w, ys, m).value, a, b);
    RunThen(u.w, ys, Divide, m);
    assert ys + [Divide] == xs + [SignExtend, Divide];
    Divided(u, m, RunAll(u.w, ys, m).value, xs + [SignExtend, Divide], Wrap(TruncDiv(a, b)), Wrap(TruncMod(a, b)));
  }

  lemma DivideRuns(u: Compilation, m: Machine, xs: seq<Asm>, a: Word, b: Word)
    requires Both(u, m, xs, a, b) && !DivTraps(a, b)
    ensures Computes(u, m, xs + [SignExtend, Divide], RAX, Wrap(TruncDiv(a, b)))
    ensures Computes(u, m, xs + [SignExtend, Divide, Move(RDX, RAX)], RAX, Wrap(TruncMod(a, b)))
  {
    assert b != 0;
    hide RunAll, Do, TruncDiv, TruncMod, Wrap, DivTraps;
    var zs := xs + [SignExtend, Divide];
    Divides(u, m, xs, a, b);
    MoveGives(u.w, RunAll(u.w, zs, m).value, RDX, RAX);
    Chain(u, m, zs, Move(RDX, RAX), RAX, Wrap(TruncMod(a, b)), RDX, Wrap(TruncMod(a, b)));
    assert zs + [Move(RDX, RAX)] == xs + [SignExtend, Divide, Move(RDX, RAX)];
  }

  lemma ComparesAs(op: BinOp, a: Word, b: Word)
    requires IsCompare(op)
    ensures Alu(op, a, b) == Some(Truth(Compares(Condition(op), Flags(a, b))))
    ensures Compares(Inverse(op), Flags(a, b)) == !Compares(Condition(op), Flags(a, b))
  {
  }

  lemma CompareSets(u: Compilation, m: Machine, xs: seq<Asm>, a: Word, b: Word)
    requires Both(u, m, xs, a, b)
    ensures Computes(u, m, xs + [Compare], RAX, a) && RunAll(u.w, xs + [Compare], m).value.flags == Some(Flags(a, b))
  {
    RunThen(u.w, xs, Compare, m);
  }

  lemma SetCcGives(w: World, m: Machine, cc: Cc)
    requires RAX in m.gpr && m.flags.Some?
    ensures Gives(w, m, SetCc(cc), RAX, PutByte(m.gpr[RAX], if Compares(cc, m.flags.value) then 1 else 0))
  {
    hide PutByte;
  }

  lemma CompareRuns(u: Compilation, m: Machine, xs: seq<Asm>, op: BinOp, a: Word, b: Word)
    requires Both(u, m, xs, a, b) && IsCompare(op)
    ensures Alu(op, a, b).Some? && Computes(u, m, xs + [Compare, SetCc(Condition(op)), ZeroExtendByte], RAX,
                                            Alu(op, a, b).value)
  {
    ComparesAs(op, a, b);
    hide RunAll, Do, Alu, Compares, PutByte, LowByte, Both, Computes, Gives;
    var cc := Condition(op);
    var t := if Compares(cc, Flags(a, b)) then 1 else 0;
    CompareSets(u, m, xs, a, b);
    var ys := xs + [Compare];
    SetCcGives(u.w, RunAll(u.w, ys, m).value, cc);
    Chain(u, m, ys, SetCc(cc), RAX, PutByte(a, t), RAX, a);
    var zs := ys + [SetCc(cc)];
    ByteOfSet(a, t);
    UnaryGives(u.w, RunAll(u.w, zs, m).value);
    Chain(u, m, zs, ZeroExtendByte, RAX, t, RAX, PutByte(a, t));
    assert zs + [ZeroExtendByte] == xs + [Compare, SetCc(cc), ZeroExtendByte];
  }

  /** The code for a binary operation leaves its result in rax. */
  lemma ArithmeticRuns(u: Compilation, m: Machine, op: BinOp, x: Opnd, y: Opnd, a: Word, b: Word)
    requires OperandAt(u, m, x, a) && OperandAt(u, m, y, b) && Alu(op, a, b).Some?
    ensures Computes(u, m, Arithmetic(u.a, u.w.base, op, x, y), RAX, Alu(op, a, b).value)
  {
    hide *;
    ScratchNames();
    LoadComputes(u, m, x, RAX, a);
    LoadPair(u, m, x, y, RAX, RCX, a, b);
    var one, both := LoadTo(u.a, u.w.base, x, RAX), LoadBoth(u.a, u.w.base, x, y);
    ArithmeticIs(u.a, u.w.base, op, x, y);
    ImmediateIs(u, m, y, b);
    AluIs(op, a, b);
    BothIs(u, m, both, a, b);
    if IsCompare(op) {
      CompareRuns(u, m, both, op, a, b);
    } else if op.Div? || op.Mod? {
      DivideRuns(u, m, both, a, b);
    } else if op.Shl? || op.Shr? {
      if y.Imm? { UnaryRuns(u, m, one, a, b); } else { ShiftClRuns(u, m, both, a, b); }
    } else if (op.Add? || op.Sub?) && y == Imm(1) {
      UnaryRuns(u, m, one, a, 1);
    } else {
      CombineRuns(u, m, both, op, a, b);
    }
  }

  lemma ImmediateIs(u: Compilation, m: Machine, o: Opnd, w: Word)
    requires OperandAt(u, m, o, w)
    ensures o.Imm? ==> o.i == w
  {
  }

  lemma ArithmeticIs(a: Allocation, base: nat, op: BinOp, x: Opnd, y: Opnd)
    ensures var one, both, code := LoadTo(a, base, x, RAX), LoadBoth(a, base, x, y), Arithmetic(a, base, op, x, y);
            && both == one + LoadTo(a, base, y, RCX)
            && (IsCompare(op) ==> code == both + [Compare, SetCc(Condition(op)), ZeroExtendByte])
            && (op.Div? ==> code == both + [SignExtend, Divide])
            && (op.Mod? ==> code == both + [SignExtend, Divide, Move(RDX, RAX)])
            && (op.Shl? || op.Shr? ==> code == if y.Imm? then one + [ShiftBy(op.Shl?, y.i)]
                        else both + [ShiftByCl(op.Shl?)])
            && ((op.Add? || op.Sub?) && y == Imm(1) ==> code == one + [if op.Add? then Increment else Decrement])
            && (!IsCompare(op) && !op.Div? && !op.Mod? && !op.Shl? && !op.Shr? ==>
                  !((op.Add? || op.Sub?) && y == Imm(1)) ==> code == both + [Combine(op)])
  {
    hide LoadTo;
  }

  lemma AluIs(op: BinOp, a: Word, b: Word)
    requires Alu(op, a, b).Some?
    ensures op.Add? ==> Alu(op, a, b).value == Wrap(a as int + b as int)
    ensures op.Sub? ==> Alu(op, a, b).value == Wrap(a as int - b as int)
    ensures op.Div? ==> !DivTraps(a, b) && Alu(op, a, b).value == Wrap(TruncDiv(a, b))
    ensures op.Mod? ==> !DivTraps(a, b) && Alu(op, a, b).value == Wrap(TruncMod(a, b))
    ensures op.Shl? ==> Alu(op, a, b).value == ShiftLeft(a, b)
    ensures op.Shr? ==> Alu(op, a, b).value == ShiftRight(a, b)
  {
    hide Wrap, TruncDiv, TruncMod, ShiftLeft, ShiftRight;
  }

  lemma BothIs(u: Compilation, m: Machine, xs: seq<Asm>, a: Word, b: Word)
    ensures Both(u, m, xs, a, b) <==> Computes(u, m, xs, RAX, a) && Computes(u, m, xs, RCX, b)
  {
  }
}
