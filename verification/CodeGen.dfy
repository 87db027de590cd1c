/** Instruction emission (`codegen_function`): every IR instruction becomes a short block of x86-64
    instructions that uses rax, rcx and rdx as scratch; a comparison whose only use is the branch behind
    it is fused with that branch; the prologue saves and the epilogue restores what belongs to the caller. */
module CodeGen {
  import opened Word64
  import opened IR
  import opened Liveness
  import LinearScan
  import opened RegAlloc
  import opened X86
  import Arguments

  const NONE: int := LinearScan.NONE

  const PHYS: seq<Gpr> := [RBX, R12, R13, R14, R15, R10, R11]

  // ----- operands -----

  function RegOf(a: Allocation, v: nat): (r: int)
    ensures NONE <= r < |PHYS|
  {
    if 0 < v < |a.reg| && 0 <= a.reg[v] < |PHYS| then a.reg[v] else NONE
  }

  function OffsetOf(a: Allocation, base: nat, v: nat): int {
    if 0 < v < |a.spill| && a.spill[v] != 0 then a.spill[v] else -(base + v * 8)
  }

  function RegOfOperand(a: Allocation, o: Opnd): (r: int)
    ensures NONE <= r < |PHYS|
  {
    if o.Reg? then RegOf(a, o.v) else NONE
  }

  function LoadTo(a: Allocation, base: nat, o: Opnd, target: Gpr): seq<Asm> {
    match o
    case Imm(i) => if i == 0 && (target == RAX || target == RCX) then [Clear(target)] else [MoveImm(i, target)]
    case Reg(v) =>
      var r := RegOf(a, v);
      if r == NONE then [LoadFrame(OffsetOf(a, base, v), target)]
      else if PHYS[r] == target then [] else [Move(PHYS[r], target)]
  }

  function StoreFrom(a: Allocation, base: nat, src: Gpr, d: nat): seq<Asm> {
    var r := RegOf(a, d);
    if r == NONE then [StoreFrame(src, OffsetOf(a, base, d))]
    else if PHYS[r] == src then [] else [Move(src, PHYS[r])]
  }

  // ----- arithmetic -----

  predicate IsCompare(op: BinOp) {
    op in {CmpEq, CmpNe, CmpLt, CmpLe, CmpGt, CmpGe}
  }

  function Condition(op: BinOp): Cc
    requires IsCompare(op)
  {
    match op
    case CmpEq => E
    case CmpNe => NE
    case CmpLt => L
    case CmpLe => LE
    case CmpGt => G
    case CmpGe => GE
  }

  function Inverse(op: BinOp): Cc
    requires IsCompare(op)
  {
    match op
    case CmpEq => NE
    case CmpNe => E
    case CmpLt => GE
    case CmpLe => G
    case CmpGt => LE
    case CmpGe => L
  }

  function LoadBoth(a: Allocation, base: nat, x: Opnd, y: Opnd): seq<Asm> {
    LoadTo(a, base, x, RAX) + LoadTo(a, base, y, RCX)
  }

  /** Leaves the result in rax. */
  function Arithmetic(a: Allocation, base: nat, op: BinOp, x: Opnd, y: Opnd): seq<Asm> {
    match op
    case Add => if y == Imm(1) then LoadTo(a, base, x, RAX) + [Increment] else LoadBoth(a, base, x, y) + [Combine(op)]
    case Sub => if y == Imm(1) then LoadTo(a, base, x, RAX) + [Decrement] else LoadBoth(a, base, x, y) + [Combine(op)]
    case Mul => LoadBoth(a, base, x, y) + [Combine(op)]
    case And => LoadBoth(a, base, x, y) + [Combine(op)]
    case Or => LoadBoth(a, base, x, y) + [Combine(op)]
    case Xor => LoadBoth(a, base, x, y) + [Combine(op)]
    case Div => LoadBoth(a, base, x, y) + [SignExtend, Divide]
    case Mod => LoadBoth(a, base, x, y) + [SignExtend, Divide, Move(RDX, RAX)]
    case Shl => if y.Imm? then LoadTo(a, base, x, RAX) + [ShiftBy(true, y.i)]
                else LoadBoth(a, base, x, y) + [ShiftByCl(true)]
    case Shr => if y.Imm? then LoadTo(a, base, x, RAX) + [ShiftBy(false, y.i)]
                else LoadBoth(a, base, x, y) + [ShiftByCl(false)]
    case CmpEq => LoadBoth(a, base, x, y) + [Compare, SetCc(Condition(op)), ZeroExtendByte]
    case CmpNe => LoadBoth(a, base, x, y) + [Compare, SetCc(Condition(op)), ZeroExtendByte]
    case CmpLt => LoadBoth(a, base, x, y) + [Compare, SetCc(Condition(op)), ZeroExtendByte]
    case CmpLe => LoadBoth(a, base, x, y) + [Compare, SetCc(Condition(op)), ZeroExtendByte]
    case CmpGt => LoadBoth(a, base, x, y) + [Compare, SetCc(Condition(op)), ZeroExtendByte]
    case CmpGe => LoadBoth(a, base, x, y) + [Compare, SetCc(Condition(op)), ZeroExtendByte]
  }

  // ----- calls -----

  /** Moves an argument to its place, through rax where that is no general register. */
  function ArgMove(a: Allocation, base: nat, o: Opnd, p: Arguments.Place): seq<Asm> {
    match p
    case InReg(n) => if n < 6 then LoadTo(a, base, o, ARG_REGS[n]) else []
    case InXmm(n) => LoadTo(a, base, o, RAX) + [ToXmm(n)]
    case OnStack(off) => LoadTo(a, base, o, RAX) + [StoreOut(off)]
  }

  function ArgMoves(a: Allocation, base: nat, args: seq<Opnd>, kinds: seq<Arg>, n: nat): seq<Asm>
    requires n <= |args| == |kinds|
  {
    if n == 0 then []
    else ArgMoves(a, base, args, kinds, n - 1) + ArgMove(a, base, args[n - 1], Arguments.Places(kinds)[n - 1])
  }

  function ArgSpace(kinds: seq<Arg>): nat {
    Align16(8 * StackCells(kinds))
  }

  function Adjust(down: bool, bytes: nat): seq<Asm> {
    if bytes == 0 then [] else if down then [SubSp(bytes)] else [AddSp(bytes)]
  }

  /** The call, announcing in al how many vector registers hold arguments. */
  function CallTo(a: Allocation, base: nat, callee: Callee, kinds: seq<Arg>): seq<Asm> {
    var vectors := SetVectorCount(Arguments.TakenBy(kinds).fp);
    match callee
    case Direct(name) => [vectors, CallName(name, kinds)]
    case Indirect(t) => LoadTo(a, base, t, R11) + [vectors, CallR11(kinds)]
  }

  /** Leaves the result in rax. */
  function Calling(a: Allocation, base: nat, callee: Callee, args: seq<Opnd>, kinds: seq<Arg>): seq<Asm>
    requires |args| == |kinds|
  {
    Adjust(true, ArgSpace(kinds)) + ArgMoves(a, base, args, kinds, |args|)
    + CallTo(a, base, callee, kinds) + Adjust(false, ArgSpace(kinds))
  }

  function SaveArg(slot: int, arg: Incoming): seq<Asm> {
    match arg
    case ArgReg(n) => if n < 6 then [StoreFrame(ARG_REGS[n], slot)] else []
    case ArgStack(off) => [LoadFrame(off, RAX), StoreFrame(RAX, slot)]
    case ArgXmm(n) => [SaveXmm(n, slot)]
  }

  /** Puts the result straight into the register of `d`, or through rax into its spill slot. */
  function Directly(a: Allocation, base: nat, d: nat, x: Gpr -> Asm): seq<Asm> {
    var r := RegOf(a, d);
    if r != NONE then [x(PHYS[r])] else [x(RAX)] + StoreFrom(a, base, RAX, d)
  }

  function TestFor(a: Allocation, base: nat, o: Opnd): seq<Asm> {
    var r := RegOfOperand(a, o);
    if r != NONE then [X86.Test(PHYS[r])] else LoadTo(a, base, o, RAX) + [X86.Test(RAX)]
  }

  function Translated(a: Allocation, base: nat, inst: Inst): seq<Asm> {
    match inst
    case Mark(l) => [Lab(Local(l))]
    case Const(d, c) =>
      if RegOf(a, d) == NONE then LoadTo(a, base, Imm(c), RAX) + StoreFrom(a, base, RAX, d)
      else if c == 0 then [Clear(PHYS[RegOf(a, d)])] else [MoveImm(c, PHYS[RegOf(a, d)])]
    case Symbol(d, sym) => Directly(a, base, d, r => LeaSymbol(sym, r))
    case AddrGlobal(d, sym) => [LeaSymbol(sym, RAX)] + StoreFrom(a, base, RAX, d)
    case Mov(d, s) =>
      var pd, ps := RegOf(a, d), RegOfOperand(a, s);
      if pd != NONE && ps != NONE then (if pd == ps then [] else [Move(PHYS[ps], PHYS[pd])])
      else if pd != NONE && s.Imm? then [MoveImm(s.i, PHYS[pd])]
      else LoadTo(a, base, s, RAX) + StoreFrom(a, base, RAX, d)
    case LoadStack(d, slot) => Directly(a, base, d, r => LoadFrame(slot, r))
    case StoreStack(slot, s) =>
      var ps := RegOfOperand(a, s);
      if ps != NONE then [StoreFrame(PHYS[ps], slot)] else LoadTo(a, base, s, RAX) + [StoreFrame(RAX, slot)]
    case StoreArg(slot, arg) => SaveArg(slot, arg)
    case AddrStack(d, slot) => Directly(a, base, d, r => LeaFrame(slot, r))
    case Load(d, p, off, size, uns) => LoadTo(a, base, p, RAX) + [LoadPtr(off, size, uns)] + StoreFrom(a, base, RCX, d)
    case Store(p, off, s, size) => LoadTo(a, base, s, RCX) + LoadTo(a, base, p, RAX) + [StorePtr(off, size)]
    case Bin(op, d, x, y) => Arithmetic(a, base, op, x, y) + StoreFrom(a, base, RAX, d)
    case Jmp(l) => [JumpTo(Local(l))]
    case JmpIf(nonzero, c, l) => TestFor(a, base, c) + [JumpCc(if nonzero then NE else E, Local(l))]
    case Call(d, callee, args, kinds) => Calling(a, base, callee, args, Arguments.Kinds(kinds, |args|))
        + StoreFrom(a, base, RAX, d)
    case Ret(s) => LoadTo(a, base, s, RAX) + [JumpTo(Epilogue)]
    case LoadGlobal(d, sym, size, uns) => [LoadSym(sym, size, uns)] + StoreFrom(a, base, RAX, d)
    case StoreGlobal(sym, s, size) => LoadTo(a, base, s, RAX) + [StoreSym(sym, size)]
    case Cast(d, s, size, uns) =>
      LoadTo(a, base, s, RAX) + (if size in {1, 2, 4} then [Widen(size, uns)] else []) + StoreFrom(a, base, RAX, d)
  }

  // ----- fused comparisons -----

  /** How often the first `k` instructions read `v`. */
  function ReadCount(code: Code, k: nat, v: nat): nat
    requires k <= |code|
  {
    if k == 0 then 0 else ReadCount(code, k - 1, v) + multiset(Reads(code[k - 1]))[v]
  }

  /** The comparison at `k` and the branch behind it become one compare-and-branch. */
  predicate Fused(code: Code, k: nat) {
    && k + 1 < |code|
    && code[k].Bin? && IsCompare(code[k].op) && code[k].d > 0
    && ReadCount(code, |code|, code[k].d) == 1
    && code[k + 1].JmpIf? && code[k + 1].cond == Reg(code[k].d)
  }

  function FusedBranch(a: Allocation, base: nat, cmp: Inst, branch: Inst): seq<Asm>
    requires cmp.Bin? && IsCompare(cmp.op) && branch.JmpIf?
  {
    LoadBoth(a, base, cmp.a, cmp.b)
    + [Compare, JumpCc(if branch.nonzero then Condition(cmp.op) else Inverse(cmp.op), Local(branch.to))]
  }

  function Block(code: Code, a: Allocation, base: nat, k: nat): seq<Asm>
    requires k < |code|
  {
    if Fused(code, k) then FusedBranch(a, base, code[k], code[k + 1])
    else if k > 0 && Fused(code, k - 1) then []
    else Translated(a, base, code[k])
  }

  function Blocks(code: Code, a: Allocation, base: nat, k: nat): seq<Asm>
    requires k <= |code|
  {
    if k == 0 then [] else Blocks(code, a, base, k - 1) + Block(code, a, base, k - 1)
  }

  // ----- prologue and epilogue -----

  predicate IsUsed(a: Allocation, r: nat) {
    r < |a.used| && r < |a.save| && a.used[r]
  }

  function Saves(a: Allocation, r: nat): seq<Asm>
    requires r <= 5
  {
    if r == 0 then [] else Saves(a, r - 1) + (if IsUsed(a, r - 1) then [StoreFrame(PHYS[r - 1], a.save[r - 1])] else [])
  }

  function Restores(a: Allocation, r: nat): seq<Asm>
    requires r <= 5
  {
    if r == 0 then [] else (if IsUsed(a, r - 1) then [LoadFrame(a.save[r - 1], PHYS[r - 1])] else [])
                           + Restores(a, r - 1)
  }

  function GeneralSaves(at: int, n: nat): seq<Asm>
    requires n <= 6
  {
    if n == 0 then [] else GeneralSaves(at, n - 1) + [StoreFrame(ARG_REGS[n - 1], at + 8 * (n - 1))]
  }

  function VectorSaves(at: int, n: nat): seq<Asm> {
    if n == 0 then [] else VectorSaves(at, n - 1) + [SaveVector(n - 1, at + 16 * (n - 1))]
  }

  /** The argument registers of a function with unnamed arguments go to its save area. */
  function SaveArea(area: Option<int>): seq<Asm> {
    if area.None? then [] else GeneralSaves(area.value, 6) + VectorSaves(area.value + 48, 8)
  }

  function Prologue(a: Allocation, base: nat, area: Option<int>): seq<Asm> {
    [PushBp, MoveSpBp, SubSp(FrameSize(base, a))] + SaveArea(area) + Saves(a, 5)
  }

  function Ending(a: Allocation): seq<Asm> {
    [Lab(Epilogue)] + Restores(a, 5) + [MoveBpSp, PopBp, Return]
  }

  function Assembled(code: Code, a: Allocation, base: nat, area: Option<int>): seq<Asm> {
    Prologue(a, base, area) + Blocks(code, a, base, |code|) + Ending(a)
  }

  // ----- the emitter -----

  /** Counts the registers that one instruction reads. */
  method CountIn(uses: array<nat>, regs: seq<nat>)
    modifies uses
    ensures forall v :: 1 <= v < uses.Length ==> uses[v] == old(uses[v]) + multiset(regs)[v]
  {
    for j := 0 to |regs|
      invariant forall v :: 1 <= v < uses.Length ==> uses[v] == old(uses[v]) + multiset(regs[..j])[v]
    {
      assert regs[..j + 1] == regs[..j] + [regs[j]];
      if 1 <= regs[j] < uses.Length { uses[regs[j]] := uses[regs[j]] + 1; }
    }
    assert regs[..|regs|] == regs;
  }

  ghost predicate Counted(uses: seq<nat>, code: Code, k: nat)
    requires k <= |code|
  {
    forall v :: 1 <= v < |uses| ==> uses[v] == ReadCount(code, k, v)
  }

  lemma CountedNext(uses: seq<nat>, uses': seq<nat>, code: Code, k: nat)
    requires k < |code| && |uses| == |uses'| && Counted(uses, code, k)
    requires forall v :: 1 <= v < |uses| ==> uses'[v] == uses[v] + multiset(Reads(code[k]))[v]
    ensures Counted(uses', code, k + 1)
  {
    hide Reads, Uses, ReadCount;
    forall v | 1 <= v < |uses| ensures uses'[v] == ReadCount(code, k + 1, v) { CountNext(code, k, v); }
  }

  lemma CountedStart(uses: seq<nat>, code: Code)
    requires forall v :: 0 <= v < |uses| ==> uses[v] == 0
    ensures Counted(uses, code, 0)
  {
  }

  /** How often each register is read. */
  method CountReads(code: Code, n: nat) returns (uses: array<nat>)
    ensures fresh(uses) && uses.Length == n + 1
    ensures forall v :: 1 <= v <= n ==> uses[v] == ReadCount(code, |code|, v)
  {
    uses := new nat[n + 1](i => 0);
    CountedStart(uses[..], code);
    hide Counted, Reads, Uses, ReadCount;
    for k := 0 to |code|
      invariant Counted(uses[..], code, k)
    {
      ghost var before := uses[..];
      CountIn(uses, Reads(code[k]));
      CountedNext(before, uses[..], code, k);
    }
    CountedIs(uses[..], code, |code|);
    assert forall v :: 1 <= v <= n ==> uses[..][v] == ReadCount(code, |code|, v);
  }

  lemma CountedIs(uses: seq<nat>, code: Code, k: nat)
    requires k <= |code| && Counted(uses, code, k)
    ensures forall v :: 1 <= v < |uses| ==> uses[v] == ReadCount(code, k, v)
  {
  }

  /** Moves the arguments into registers and into the outgoing area; `fp` vector registers are used. */
  method EmitArgs(a: Allocation, base: nat, args: seq<Opnd>, kinds: seq<Arg>) returns (out: seq<Asm>, fp: nat)
    requires |args| == |kinds|
    ensures out == ArgMoves(a, base, args, kinds, |args|) && fp == Arguments.TakenBy(kinds).fp
  {
    hide LoadTo, Arguments.Places, Arguments.TakenBy, Arguments.GpWanted, Arguments.Counted;
    out := [];
    fp := 0;
    var gp, stackIndex := 0, 0;
    Arguments.NoPieces();
    for i := 0 to |args|
      invariant out == ArgMoves(a, base, args, kinds, i)
      invariant Arguments.Taken(gp, fp, stackIndex) == Arguments.TakenBy(kinds[..i])
    {
      Arguments.NextPiece(kinds, i);
      Arguments.PlaceAt(kinds, i);
      if !kinds[i].onStack && kinds[i].fp && fp < Arguments.VECTOR {
        out := out + (LoadTo(a, base, args[i], RAX) + [ToXmm(fp)]);
        fp := fp + 1;
      } else if !kinds[i].onStack && !kinds[i].fp && gp < Arguments.GENERAL {
        out := out + LoadTo(a, base, args[i], ARG_REGS[gp]);
        gp := gp + 1;
      } else {
        out := out + (LoadTo(a, base, args[i], RAX) + [StoreOut(8 * stackIndex)]);
        stackIndex := stackIndex + 1;
      }
    }
    assert kinds[..|kinds|] == kinds;
  }

  method EmitCall(a: Allocation, base: nat, d: nat, callee: Callee, args: seq<Opnd>, kinds: seq<Arg>)
      returns (out: seq<Asm>)
    ensures out == Translated(a, base, Call(d, callee, args, kinds))
  {
    hide LoadTo, StoreFrom, ArgMoves, Arguments.TakenBy, Arguments.Kinds;
    var passed := Arguments.Kinds(kinds, |args|);
    var stackCount := Arguments.CountStackCells(passed);
    var space := if stackCount > 0 then Align16(8 * stackCount) else 0;
    assert space == ArgSpace(passed);
    var moves, fp := EmitArgs(a, base, args, passed);
    out := Adjust(true, space) + moves;
    match callee {
      case Direct(name) => out := out + [SetVectorCount(fp), CallName(name, passed)];
      case Indirect(t) => out := out + (LoadTo(a, base, t, R11) + [SetVectorCount(fp), CallR11(passed)]);
    }
    out := out + Adjust(false, space);
    out := out + StoreFrom(a, base, RAX, d);
  }

  method EmitSaveArea(at: int) returns (out: seq<Asm>)
    ensures out == SaveArea(Some(at))
  {
    out := [];
    for i := 0 to 6
      invariant out == GeneralSaves(at, i)
    {
      out := out + [StoreFrame(ARG_REGS[i], at + 8 * i)];
    }
    for i := 0 to 8
      invariant out == GeneralSaves(at, 6) + VectorSaves(at + 48, i)
    {
      out := out + [SaveVector(i, at + 48 + 16 * i)];
    }
  }

  method EmitPrologue(a: Allocation, base: nat, area: Option<int>) returns (out: seq<Asm>)
    requires |a.used| == |a.save| == LinearScan.REG_COUNT
    ensures out == Prologue(a, base, area)
  {
    hide SaveArea;
    out := [PushBp, MoveSpBp, SubSp(FrameSize(base, a))];
    if area.Some? {
      var saved := EmitSaveArea(area.value);
      out := out + saved;
    } else {
      NoSaveArea();
    }
    ghost var start := out;
    for r := 0 to 5
      invariant out == start + Saves(a, r)
    {
      if a.used[r] { out := out + [StoreFrame(PHYS[r], a.save[r])]; }
    }
  }

  lemma NoSaveArea()
    ensures SaveArea(None) == []
  {
  }

  lemma BlocksNext(code: Code, a: Allocation, base: nat, k: nat)
    requires k < |code|
    ensures Blocks(code, a, base, k + 1) == Blocks(code, a, base, k) + Block(code, a, base, k)
  {
  }

  lemma BlockIs(code: Code, a: Allocation, base: nat, k: nat)
    requires k < |code|
    ensures Fused(code, k) <==>
              && code[k].Bin? && IsCompare(code[k].op) && k + 1 < |code| && code[k].d > 0
              && ReadCount(code, |code|, code[k].d) == 1 && code[k + 1].JmpIf? && code[k + 1].cond == Reg(code[k].d)
    ensures Fused(code, k) ==> Block(code, a, base, k) == FusedBranch(a, base, code[k], code[k + 1])
    ensures Fused(code, k) ==> k + 1 < |code| && !Fused(code, k + 1) && Block(code, a, base, k + 1) == []
    ensures !Fused(code, k) && (k == 0 || !Fused(code, k - 1)) ==>
              Block(code, a, base, k) == Translated(a, base, code[k])
  {
  }

  /** One pass over the instructions, skipping a branch that has been fused. */
  method EmitBody(code: Code, n: nat, a: Allocation, base: nat) returns (out: seq<Asm>)
    requires forall k :: 0 <= k < |code| && code[k].Bin? ==> 1 <= code[k].d <= n
    ensures out == Blocks(code, a, base, |code|)
  {
    hide *;
    var uses := CountReads(code, n);
    out := [];
    var k := 0;
    BlocksOfNothing(code, a, base);
    while k < |code|
      invariant 0 <= k <= |code|
      invariant 0 < k < |code| ==> !Fused(code, k - 1)
      invariant forall v :: 1 <= v <= n ==> uses[v] == ReadCount(code, |code|, v)
      invariant out == Blocks(code, a, base, k)
    {
      var inst := code[k];
      BlockIs(code, a, base, k);
      BlocksNext(code, a, base, k);
      if inst.Bin? && IsCompare(inst.op) && k + 1 < |code| && inst.d > 0 && uses[inst.d] == 1
        && code[k + 1].JmpIf? && code[k + 1].cond == Reg(inst.d)
      {
        out := out + FusedBranch(a, base, inst, code[k + 1]);
        BlocksNext(code, a, base, k + 1);
        k := k + 2;
      } else {
        var block := if inst.Call? then [] else Translated(a, base, inst);
        if inst.Call? { block := EmitCall(a, base, inst.d, inst.callee, inst.args, inst.kinds); }
        out := out + block;
        k := k + 1;
      }
    }
  }

  lemma BlocksOfNothing(code: Code, a: Allocation, base: nat)
    ensures Blocks(code, a, base, 0) == []
  {
  }

  lemma RestoresNext(a: Allocation, r: nat)
    requires r < 5 && |a.used| == |a.save| == LinearScan.REG_COUNT
    ensures Restores(a, 0) == []
    ensures a.used[r] ==> Restores(a, r + 1) == [LoadFrame(a.save[r], PHYS[r])] + Restores(a, r)
    ensures !a.used[r] ==> Restores(a, r + 1) == Restores(a, r)
  {
  }

  method EmitEnding(a: Allocation) returns (out: seq<Asm>)
    requires |a.used| == |a.save| == LinearScan.REG_COUNT
    ensures out == Ending(a)
  {
    out := [Lab(Epilogue)];
    assert Ending(a) == out + Restores(a, 5) + [MoveBpSp, PopBp, Return];
    hide *;
    var r := 5;
    while r > 0
      invariant 0 <= r <= 5
      invariant out + Restores(a, r) == [Lab(Epilogue)] + Restores(a, 5)
    {
      r := r - 1;
      RestoresNext(a, r);
      if a.used[r] {
        out := out + [LoadFrame(a.save[r], PHYS[r])];
      }
    }
    assert out == out + Restores(a, 0);
    out := out + [MoveBpSp, PopBp, Return];
  }

  method EmitFunction(code: Code, n: nat, a: Allocation, base: nat, area: Option<int>) returns (out: seq<Asm>)
    requires |a.used| == |a.save| == LinearScan.REG_COUNT
    requires forall k :: 0 <= k < |code| && code[k].Bin? ==> 1 <= code[k].d <= n
    ensures out == Assembled(code, a, base, area)
  {
    hide Prologue, Ending, Blocks;
    out := EmitPrologue(a, base, area);
    var body := EmitBody(code, n, a, base);
    var ending := EmitEnding(a);
    out := out + body + ending;
  }

  // ----- compares and branches -----

  lemma TimesRead(inst: Inst, v: nat)
    ensures v !in Uses(inst) ==> multiset(Reads(inst))[v] == 0
    ensures v in Uses(inst) ==> multiset(Reads(inst))[v] >= 1
  {
    hide Uses, Reads;
    assert v in Reads(inst) <==> v in multiset(Reads(inst));
  }

  lemma BranchReads(inst: Inst, v: nat)
    requires inst.JmpIf? && inst.cond == Reg(v)
    ensures v in Uses(inst) && multiset(Reads(inst))[v] == 1
  {
    var os := [inst.cond];
    assert os[1..] == [] && OperandRegs(os[1..]) == [];
    assert Reads(inst) == OperandRegs(os) == [v];
  }

  lemma CountNext(code: Code, k: nat, v: nat)
    requires k < |code|
    ensures ReadCount(code, k + 1, v) == ReadCount(code, k, v) + multiset(Reads(code[k]))[v]
  {
    hide Reads;
  }

  lemma {:induction false} CountNone(code: Code, k: nat, v: nat)
    requires k <= |code| && forall i :: 0 <= i < k ==> v !in Uses(code[i])
    ensures ReadCount(code, k, v) == 0
  {
    hide Reads, Uses;
    if k > 0 {
      CountNone(code, k - 1, v);
      CountNext(code, k - 1, v);
      TimesRead(code[k - 1], v);
    }
  }

  lemma {:induction false} CountOnce(code: Code, k: nat, v: nat, at: nat)
    requires at < k <= |code| && code[at].JmpIf? && code[at].cond == Reg(v)
    requires forall i :: 0 <= i < k && i != at ==> v !in Uses(code[i])
    ensures ReadCount(code, k, v) == 1
  {
    hide Reads, Uses, ReadCount;
    CountNext(code, k - 1, v);
    if at == k - 1 {
      CountNone(code, k - 1, v);
      BranchReads(code[at], v);
    } else {
      CountOnce(code, k - 1, v, at);
      TimesRead(code[k - 1], v);
    }
  }

  lemma {:induction false} CountMore(code: Code, k: nat, v: nat, at: nat)
    requires at < k <= |code| && v in Uses(code[at])
    ensures ReadCount(code, k, v) >= 1
  {
    hide Reads, Uses, ReadCount;
    CountNext(code, k - 1, v);
    if at < k - 1 { CountMore(code, k - 1, v, at); } else { TimesRead(code[at], v); }
  }

  lemma {:induction false} CountTwo(code: Code, k: nat, v: nat, i: nat, j: nat)
    requires i < j < k <= |code| && v in Uses(code[i]) && v in Uses(code[j])
    ensures ReadCount(code, k, v) >= 2
  {
    hide Reads, Uses, ReadCount;
    CountNext(code, k - 1, v);
    if j < k - 1 {
      CountTwo(code, k - 1, v, i, j);
    } else {
      CountMore(code, k - 1, v, i);
      TimesRead(code[j], v);
    }
  }

  /** The condition code under which a branch on the result of a compare is taken. */
  function TakenOn(op: BinOp, nonzero: bool): Cc
    requires IsCompare(op)
  {
    match op
    case CmpEq => if nonzero then E else NE
    case CmpNe => if nonzero then NE else E
    case CmpLt => if nonzero then L else GE
    case CmpLe => if nonzero then LE else G
    case CmpGt => if nonzero then G else LE
    case CmpGe => if nonzero then GE else L
  }

  /** The branch right behind it is the only one to read its result. */
  ghost predicate OnlyBranchReads(code: Code, k: nat)
    requires k < |code| && code[k].Bin?
  {
    && k + 1 < |code| && code[k + 1].JmpIf? && code[k + 1].cond == Reg(code[k].d)
    && forall i :: 0 <= i < |code| && i != k + 1 ==> code[k].d !in Uses(code[i])
  }

  lemma FusedExactly(code: Code, k: nat)
    requires k < |code| && code[k].Bin? && IsCompare(code[k].op) && code[k].d > 0
    ensures Fused(code, k) <==> OnlyBranchReads(code, k)
  {
    var d := code[k].d;
    hide ReadCount, Uses, Reads;
    if k + 1 < |code| && code[k + 1].JmpIf? && code[k + 1].cond == Reg(d) {
      BranchReads(code[k + 1], d);
      if OnlyBranchReads(code, k) {
        CountOnce(code, |code|, d, k + 1);
      } else {
        var i: nat :| i < |code| && i != k + 1 && d in Uses(code[i]);
        if i < k + 1 { CountTwo(code, |code|, d, i, k + 1); } else { CountTwo(code, |code|, d, k + 1, i); }
      }
    }
  }

  /** A compare whose result only the branch right behind it reads is no more than the compare and the conditional
      jump, and the branch itself is no code; every other compare makes its result. */
  lemma ComparesFuse(code: Code, a: Allocation, base: nat, k: nat)
    requires k < |code| && code[k].Bin? && IsCompare(code[k].op) && code[k].d > 0
    requires !(k > 0 && Fused(code, k - 1))
    ensures if OnlyBranchReads(code, k) then
              && Block(code, a, base, k)
                 == LoadBoth(a, base, code[k].a, code[k].b)
                    + [Compare, JumpCc(TakenOn(code[k].op, code[k + 1].nonzero), Local(code[k + 1].to))]
              && Block(code, a, base, k + 1) == []
            else Block(code, a, base, k) == Translated(a, base, code[k])
  {
    FusedExactly(code, k);
    hide ReadCount, LoadBoth, Translated;
  }

  // ----- what the code of an instruction does in the frame -----

  /** The frame is read for the operands that were given no register, and written for such a result; beyond that
      for the slot or stack argument that the instruction names. */
  ghost predicate FrameUse(a: Allocation, base: nat, inst: Inst, x: Asm) {
    && (x.LoadFrame? ==>
          || (inst.LoadStack? && x.off == inst.slot) || (inst.StoreArg? && inst.arg.ArgStack? && inst.arg.n == x.off)
          || exists v :: v in Uses(inst) && RegOf(a, v) == -1 && x.off == OffsetOf(a, base, v))
    && (x.StoreFrame? ==>
          || ((inst.StoreStack? || inst.StoreArg?) && x.off == inst.slot)
          || (Def(inst).Some? && RegOf(a, Def(inst).value) == -1 && x.off == OffsetOf(a, base, Def(inst).value)))
  }

  lemma LoadStays(a: Allocation, base: nat, inst: Inst, o: Opnd, target: Gpr)
    requires o.Reg? ==> o.v in Uses(inst)
    ensures forall x :: x in LoadTo(a, base, o, target) ==> FrameUse(a, base, inst, x)
  {
    hide Uses, Def, OffsetOf, RegOf;
  }

  lemma StoreStays(a: Allocation, base: nat, inst: Inst, src: Gpr, d: nat)
    requires Def(inst) == Some(d)
    ensures forall x :: x in StoreFrom(a, base, src, d) ==> FrameUse(a, base, inst, x)
  {
    hide Uses, Def, OffsetOf, RegOf;
  }

  lemma ArithmeticStays(a: Allocation, base: nat, inst: Inst)
    requires inst.Bin?
    ensures forall x :: x in Arithmetic(a, base, inst.op, inst.a, inst.b) ==> FrameUse(a, base, inst, x)
  {
    LoadStays(a, base, inst, inst.a, RAX);
    LoadStays(a, base, inst, inst.b, RCX);
    hide Uses, Def, LoadTo;
  }

  lemma NoDetour(a: Allocation, base: nat, inst: Inst, x: Asm)
    requires !inst.Call? && x in Translated(a, base, inst)
    ensures FrameUse(a, base, inst, x)
  {
    forall o: Opnd, t: Gpr | o.Reg? ==> o.v in Uses(inst)
      ensures forall y :: y in LoadTo(a, base, o, t) ==> FrameUse(a, base, inst, y) {
      LoadStays(a, base, inst, o, t);
    }
    if Def(inst).Some? {
      forall src: Gpr ensures forall y :: y in StoreFrom(a, base, src, Def(inst).value) ==> FrameUse(a, base, inst, y) {
        StoreStays(a, base, inst, src, Def(inst).value);
      }
    }
    if inst.Bin? { ArithmeticStays(a, base, inst); }
    hide LoadTo, StoreFrom, Arithmetic, OffsetOf;
  }

  /** How many machine instructions an instruction may take, an operand or result without a register counting as
      a load or store of its own. */
  function Most(a: Allocation, inst: Inst): nat {
    var result := if Def(inst).Some? && RegOf(a, Def(inst).value) == -1 then 1 else 0;
    match inst
    case Mark(_) => 1
    case Const(_, _) => 1 + result
    case Symbol(_, _) => 1 + result
    case AddrGlobal(_, _) => 2
    case Mov(_, s) => if s.Reg? && RegOf(a, s.v) == -1 then 2 else 1 + result
    case LoadStack(_, _) => 1 + result
    case AddrStack(_, _) => 1 + result
    case StoreStack(_, s) => if s.Reg? && RegOf(a, s.v) != -1 then 1 else 2
    case StoreArg(_, arg) => if arg.ArgStack? then 2 else 1
    case Load(_, _, _, _, _) => 3
    case Store(_, _, _, _) => 3
    case Bin(op, _, x, y) =>
      (match op
       case Div => 5
       case Mod => 6
       case Add => if y == Imm(1) then 3 else 4
       case Sub => if y == Imm(1) then 3 else 4
       case Shl => if y.Imm? then 3 else 4
       case Shr => if y.Imm? then 3 else 4
       case CmpEq => 6
       case CmpNe => 6
       case CmpLt => 6
       case CmpLe => 6
       case CmpGt => 6
       case CmpGe => 6
       case _ => 4)
    case Jmp(_) => 1
    case JmpIf(_, c, _) => if c.Reg? && RegOf(a, c.v) != -1 then 2 else 3
    case Ret(_) => 2
    case LoadGlobal(_, _, _, _) => 2
    case StoreGlobal(_, _, _) => 2
    case Cast(_, _, size, _) => if size in {1, 2, 4} then 3 else 2
    case Call(_, _, _, _) => 0
  }

  lemma CodeSize(a: Allocation, base: nat, inst: Inst)
    requires !inst.Call?
    ensures |Translated(a, base, inst)| <= Most(a, inst)
  {
    hide OffsetOf, RegOf;
    forall o: Opnd, t: Gpr ensures |LoadTo(a, base, o, t)| <= 1 { }
    forall d: nat, src: Gpr ensures |StoreFrom(a, base, src, d)| <= 1 { }
    if inst.Bin? {
      var xs := LoadBoth(a, base, inst.a, inst.b);
      assert |xs| <= 2;
      hide LoadTo, LoadBoth;
    }
  }
}
