/** Algebraic simplification (`opt_algebraic_simplification`). */
module Algebra {
  import opened Word64
  import opened IR
  import opened Simulation
  import opened LoweredForm
  import opened Lockstep
  import opened Function

  predicate Is(o: Opnd, c: Word) {
    o == Imm(c)
  }

  predicate SameReg(a: Opnd, b: Opnd) {
    a.Reg? && a == b
  }

  /** How often 2 divides into `m` before 1 is reached; the exponent when `m` is a power of two. */
  function Log2(m: nat): nat
    requires m >= 1
  {
    if m == 1 then 0 else 1 + Log2(m / 2)
  }

  predicate Shiftable(m: Word) {
    m > 1 && Bitwise(KAnd, m, m - 1) == 0 && Log2(m) <= 62
  }

  function Simplify(inst: Inst): Inst {
    if !inst.Bin? then inst
    else
      var d, a, b := inst.d, inst.a, inst.b;
      match inst.op
      case Add =>
        if Is(b, 0) then Mov(d, a) else if Is(a, 0) then Mov(d, b) else inst
      case Sub =>
        if Is(b, 0) then Mov(d, a) else if SameReg(a, b) then Const(d, 0) else inst
      case Mul =>
        if Is(b, -1) || Is(a, -1) then Bin(Sub, d, Imm(0), if Is(b, -1) then a else b)
        else if Is(b, 0) || Is(a, 0) then Const(d, 0)
        else if Is(b, 1) then Mov(d, a)
        else if Is(a, 1) then Mov(d, b)
        else if b.Imm? && Shiftable(b.i) then Bin(Shl, d, a, Imm(Log2(b.i)))
        else if a.Imm? && Shiftable(a.i) then Bin(Shl, d, b, Imm(Log2(a.i)))
        else inst
      case Div =>
        if Is(b, -1) then Bin(Sub, d, Imm(0), a)
        else if Is(b, 1) then Mov(d, a)
        else if Is(a, 0) && !Is(b, 0) then Const(d, 0)
        else if SameReg(a, b) then Const(d, 1)
        else inst
      case Mod =>
        if Is(b, 1) then Const(d, 0)
        else if SameReg(a, b) then Const(d, 0)
        else if Is(a, 0) && !Is(b, 0) then Const(d, 0)
        else inst
      case And =>
        if Is(b, 0) || Is(a, 0) then Const(d, 0)
        else if SameReg(a, b) then Mov(d, a)
        else if Is(b, -1) then Mov(d, a)
        else if Is(a, -1) then Mov(d, b)
        else inst
      case Or =>
        if Is(b, 0) then Mov(d, a)
        else if Is(a, 0) then Mov(d, b)
        else if SameReg(a, b) then Mov(d, a)
        else if Is(b, -1) || Is(a, -1) then Const(d, -1)
        else inst
      case Xor =>
        if Is(b, 0) then Mov(d, a)
        else if Is(a, 0) then Mov(d, b)
        else if SameReg(a, b) then Const(d, 0)
        else inst
      case Shl =>
        if Is(b, 0) then Mov(d, a) else if Is(a, 0) then Const(d, 0) else inst
      case Shr =>
        if Is(b, 0) then Mov(d, a) else if Is(a, 0) then Const(d, 0) else inst
      case CmpEq => if SameReg(a, b) then Const(d, 1) else inst
      case CmpNe => if SameReg(a, b) then Const(d, 0) else inst
      case CmpLt => if SameReg(a, b) then Const(d, 0) else inst
      case CmpLe => if SameReg(a, b) then Const(d, 1) else inst
      case CmpGt => if SameReg(a, b) then Const(d, 0) else inst
      case CmpGe => if SameReg(a, b) then Const(d, 1) else inst
  }

  ghost function Simplified(code: Code): (q: Code)
    ensures |q| == |code|
  {
    seq(|code|, i requires 0 <= i < |code| => Simplify(code[i]))
  }

  method AlgebraicSimplification(fn: IRFunction) returns (changed: bool)
    modifies fn
    ensures fn.insts == Simplified(old(fn.insts)) && Simplifies(old(fn.insts), fn.insts)
    ensures !changed ==> fn.insts == old(fn.insts)
  {
    hide Simplify;
    ghost var code := fn.insts;
    var n := |fn.insts|;
    changed := false;
    for i := 0 to n
      invariant |fn.insts| == n
      invariant forall j :: 0 <= j < i ==> fn.insts[j] == Simplify(code[j])
      invariant forall j :: i <= j < n ==> fn.insts[j] == code[j]
      invariant !changed ==> fn.insts == code
    {
      var inst := Simplify(fn.insts[i]);
      if inst != fn.insts[i] {
        fn.Replace(i, inst);
        changed := true;
      }
    }
    SimplifiedExactly(code);
  }

  // ----- every rule computes what the operation computes -----

  lemma {:induction false} Log2OfPower(k: nat)
    ensures Log2(Pow2(k)) == k
  {
    if k > 0 { Log2OfPower(k - 1); }
  }

  lemma FactorIsPower(m: Word)
    requires Shiftable(m)
    ensures Pow2(Log2(m)) == m
  {
    Pow2Is64();
    assert Unsigned(m) == m && Unsigned(m - 1) == m - 1;
    var bits := Bits(KAnd, 64, m, m - 1);
    assert Wrap(bits) == 0 && bits < TWO64;
    assert bits == 0;
    PowerOfTwoTest(64, m);
    var k: nat :| k < 64 && m == Pow2(k);
    Log2OfPower(k);
  }

  lemma AddSubRules(a: Word, b: Word)
    ensures Alu(Add, a, 0) == Some(a) && Alu(Add, 0, b) == Some(b)
    ensures Alu(Sub, a, 0) == Some(a) && Alu(Sub, a, a) == Some(0)
  {
  }

  lemma MulRules(a: Word, b: Word)
    ensures a == -1 ==> Alu(Mul, a, b) == Alu(Sub, 0, b)
    ensures b == -1 ==> Alu(Mul, a, b) == Alu(Sub, 0, a)
    ensures a == 0 || b == 0 ==> Alu(Mul, a, b) == Some(0)
    ensures a == 1 ==> Alu(Mul, a, b) == Some(b)
    ensures b == 1 ==> Alu(Mul, a, b) == Some(a)
  {
  }

  lemma ShiftIsProduct(a: Word, k: Word, p: int)
    requires 0 <= k < 64 && Pow2(k) == p
    ensures ShiftLeft(a, k) == Wrap(a * p)
  {
  }

  /** Multiplying by a factor the test accepts is shifting by its logarithm. */
  lemma ShiftRules(a: Word, m: Word)
    requires Shiftable(m)
    ensures 0 <= Log2(m) <= 62
    ensures Alu(Mul, a, m) == Alu(Shl, a, Log2(m)) == Alu(Mul, m, a)
  {
    FactorIsPower(m);
    ShiftIsProduct(a, Log2(m), m);
    assert a * m == m * a;
  }

  lemma DivisionRules(x: Word)
    ensures Alu(Div, x, 1) == Some(x) && Alu(Mod, x, 1) == Some(0)
    ensures x != -TWO63 ==> Alu(Div, x, -1) == Alu(Sub, 0, x)
    ensures Alu(Div, x, 0).None? && Alu(Mod, x, 0).None? && Alu(Div, -TWO63, -1).None?
    ensures x != 0 ==> Alu(Div, 0, x) == Some(0) && Alu(Mod, 0, x) == Some(0)
    ensures x != 0 ==> Alu(Div, x, x) == Some(1) && Alu(Mod, x, x) == Some(0)
  {
    var n: int := if x < 0 then -(x as int) else x;
    if n > 0 { assert 0 / n == 0 && n / n == 1; }
  }

  lemma BitRules(x: Word)
    ensures Alu(And, x, 0) == Some(0) == Alu(And, 0, x) && Alu(And, x, x) == Some(x)
    ensures Alu(And, x, -1) == Some(x) == Alu(And, -1, x)
    ensures Alu(Or, x, 0) == Some(x) == Alu(Or, 0, x) && Alu(Or, x, x) == Some(x)
    ensures Alu(Or, x, -1) == Some(-1) == Alu(Or, -1, x)
    ensures Alu(Xor, x, 0) == Some(x) == Alu(Xor, 0, x) && Alu(Xor, x, x) == Some(0)
  {
    hide Bitwise;
    BitwiseIdentities(x);
  }

  lemma ZeroShiftRules(x: Word)
    ensures Alu(Shl, 0, x) == Some(0) == Alu(Shr, 0, x)
    ensures Alu(Shl, x, 0) == Some(x) == Alu(Shr, x, 0)
  {
    var p := Pow2(x % 64);
    assert 0 * p == 0 && 0 / p == 0;
    assert Pow2(0) == 1;
  }

  lemma CompareRules(x: Word)
    ensures Alu(CmpEq, x, x) == Some(1) == Alu(CmpLe, x, x) == Alu(CmpGe, x, x)
    ensures Alu(CmpNe, x, x) == Some(0) == Alu(CmpLt, x, x) == Alu(CmpGt, x, x)
  {
  }

  /** Unless it traps, an operation and its simplification write the same word. */
  lemma SimplifySame(env: Env, inst: Inst, d: Data)
    requires !Exec(env, inst, d).Stuck?
    ensures Exec(env, Simplify(inst), d) == Exec(env, inst, d)
  {
    hide Alu, Shiftable, Log2;
    if inst.Bin? {
      var a, b := Val(d.regs, inst.a).value, Val(d.regs, inst.b).value;
      match inst.op
      case Add => AddSubRules(a, b);
      case Sub => AddSubRules(a, b);
      case Mul =>
        MulRules(a, b);
        if Shiftable(b) { ShiftRules(a, b); }
        if Shiftable(a) { ShiftRules(b, a); }
      case Div => DivisionRules(a); DivisionRules(b);
      case Mod => DivisionRules(a); DivisionRules(b);
      case And => BitRules(a); BitRules(b);
      case Or => BitRules(a); BitRules(b);
      case Xor => BitRules(a); BitRules(b);
      case Shl => ZeroShiftRules(a); ZeroShiftRules(b);
      case Shr => ZeroShiftRules(a); ZeroShiftRules(b);
      case _ => CompareRules(a);
    }
  }

  lemma SimplifyShape(inst: Inst)
    ensures var inst' := Simplify(inst);
            && Def(inst') == Def(inst)
            && Uses(inst') <= Uses(inst)
            && (inst' == inst || (inst.Bin? && (inst'.Bin? || inst'.Mov? || inst'.Const?)))
            && Reshapes(inst, inst')
  {
  }

  ghost function Always(): Fact {
    (i: nat, d: Data) => true
  }

  lemma SimplifiedControl(code: Code)
    ensures SameControl(code, Simplified(code))
  {
    hide Simplify;
    forall i | 0 <= i < |code|
      ensures var inst, inst' := code[i], Simplified(code)[i];
              && (inst.Mark? <==> inst'.Mark?) && (inst.Mark? ==> inst == inst')
              && (IsJump(inst) <==> IsJump(inst')) && (IsJump(inst) ==> inst.to == inst'.to)
    {
      SimplifyShape(code[i]);
    }
  }

  lemma SimplificationPreserves(env: Env, code: Code)
    ensures Preserves(env, code, Simplified(code))
  {
    hide Simplify, Exec;
    SimplifiedControl(code);
    forall i: nat, d: Data | i < |code| && Always()(i, d)
      ensures KeepsStep(env, code, Simplified(code), Always(), i, d)
    {
      if !Exec(env, code[i], d).Stuck? { SimplifySame(env, code[i], d); }
    }
    LockstepPreserves(env, code, Simplified(code), Always());
  }

  lemma SimplificationKeepsForm(code: Code)
    requires Lowered(code)
    ensures Lowered(Simplified(code)) && NoNew(code, Simplified(code)) && Taken(Simplified(code)) == Taken(code)
  {
    hide Simplify;
    var q := Simplified(code);
    SimplifiedControl(code);
    forall i | 0 <= i < |code|
      ensures Reshapes(code[i], q[i])
      ensures forall v :: v in Uses(q[i]) ==> UseOK(code, v, i)
      ensures code[i].AddrStack? <==> q[i].AddrStack?
      ensures code[i].AddrStack? ==> q[i] == code[i]
    {
      SimplifyShape(code[i]);
    }
    RewritingKeepsForm(code, q);
  }

  // ----- which operations are simplified -----

  ghost predicate PowerFactor(o: Opnd) {
    o.Imm? && exists k: nat :: 1 <= k <= 62 && o.i == Pow2(k)
  }

  /** One operand, or the two being the same, decides the result. */
  ghost predicate Decided(op: BinOp, a: Opnd, b: Opnd) {
    var same := a.Reg? && a == b;
    match op
    case Add => a == Imm(0) || b == Imm(0)
    case Sub => b == Imm(0) || same
    case Mul => a in {Imm(-1), Imm(0), Imm(1)} || b in {Imm(-1), Imm(0), Imm(1)} || PowerFactor(a) || PowerFactor(b)
    case Div => b in {Imm(-1), Imm(1)} || (a == Imm(0) && b != Imm(0)) || same
    case Mod => b == Imm(1) || (a == Imm(0) && b != Imm(0)) || same
    case And => a in {Imm(-1), Imm(0)} || b in {Imm(-1), Imm(0)} || same
    case Or => a in {Imm(-1), Imm(0)} || b in {Imm(-1), Imm(0)} || same
    case Xor => a == Imm(0) || b == Imm(0) || same
    case Shl => a == Imm(0) || b == Imm(0)
    case Shr => a == Imm(0) || b == Imm(0)
    case _ => same
  }

  /** A constant, a move of an operand, a negation, or a shift by a constant. */
  predicate Simpler(inst: Inst, op: BinOp, d: nat, a: Opnd, b: Opnd) {
    || (inst.Const? && inst.d == d)
    || (inst.Mov? && inst.d == d && (inst.s == a || inst.s == b))
    || (op in {Mul, Div} && (inst == Bin(Sub, d, Imm(0), a) || inst == Bin(Sub, d, Imm(0), b)))
    || (op.Mul? && inst.Bin? && inst.b.Imm? && 1 <= inst.b.i <= 62
        && (inst == Bin(Shl, d, a, inst.b) || inst == Bin(Shl, d, b, inst.b)))
  }

  /** Exactly the operations that an operand decides become simpler ones. */
  ghost predicate Simplifies(code: Code, q: Code) {
    && |q| == |code|
    && forall i :: 0 <= i < |code| ==>
         if code[i].Bin? && Decided(code[i].op, code[i].a, code[i].b)
         then Simpler(q[i], code[i].op, code[i].d, code[i].a, code[i].b)
         else q[i] == code[i]
  }

  lemma {:induction false} PowersGrow(j: nat, k: nat)
    requires j < k
    ensures Pow2(j) < Pow2(k)
    decreases k
  {
    if j < k - 1 { PowersGrow(j, k - 1); }
  }

  /** The test accepts the powers of two from 2 to 2^62. */
  lemma ShiftableExact(m: Word)
    ensures Shiftable(m) <==> PowerFactor(Imm(m))
    ensures Shiftable(m) ==> 1 <= Log2(m) <= 62
  {
    hide Bits, Bitwise, Log2;
    if Shiftable(m) {
      FactorIsPower(m);
      assert Pow2(0) == 1;
      assert Log2(m) >= 1;
    }
    if PowerFactor(Imm(m)) {
      var k: nat :| 1 <= k <= 62 && m == Pow2(k);
      Log2OfPower(k);
      PowersGrow(0, k);
      PowerPasses(m, k);
    }
  }

  lemma PowerPasses(m: Word, k: nat)
    requires 1 <= k <= 62 && m == Pow2(k) && m > 1
    ensures Bitwise(KAnd, m, m - 1) == 0
  {
    hide Bits;
    Pow2Is64();
    PowersGrow(k, 63);
    PowerOfTwoTest(64, m);
    assert IsPowerOfTwo(64, m);
    assert Unsigned(m) == m && Unsigned(m - 1) == m - 1;
  }

  lemma SimplifyExact(inst: Inst)
    ensures if inst.Bin? && Decided(inst.op, inst.a, inst.b)
            then Simpler(Simplify(inst), inst.op, inst.d, inst.a, inst.b)
            else Simplify(inst) == inst
  {
    hide Shiftable, Log2;
    if inst.Bin? {
      if inst.a.Imm? { ShiftableExact(inst.a.i); }
      if inst.b.Imm? { ShiftableExact(inst.b.i); }
      hide PowerFactor;
    }
  }

  lemma SimplifiedExactly(code: Code)
    ensures Simplifies(code, Simplified(code))
  {
    hide Simplify, Decided, Simpler;
    forall i | 0 <= i < |code|
      ensures if code[i].Bin? && Decided(code[i].op, code[i].a, code[i].b)
              then Simpler(Simplified(code)[i], code[i].op, code[i].d, code[i].a, code[i].b)
              else Simplified(code)[i] == code[i]
    {
      SimplifyExact(code[i]);
    }
  }
}
