/** The x86-64 instructions the code generator emits, and a machine that runs them.

    Stack addresses are written relative to the 16-byte aligned address at which the prologue saves %rbp,
    so at entry %rsp is 8 and holds the return address. The stack is a map from addresses to 8-byte cells:
    writing one destroys every cell it overlaps, and reading a cell that is not there faults. Likewise a
    register that is not in the register file holds nothing known and faults when read. Below %rsp nothing
    may be touched, and a call with %rsp not 16-byte aligned faults. What is behind pointers, globals and
    callees is the same `Env` as for the IR. */
module X86 {
  import opened Word64
  import opened IR
  import Arguments

  datatype Gpr = RAX | RCX | RDX | RBX | RSI | RDI | R8 | R9 | R10 | R11 | R12 | R13 | R14 | R15

  datatype Cc = E | NE | L | LE | G | GE

  datatype Tag = Local(l: Label) | Epilogue

  datatype Asm =
    | Lab(tag: Tag)
    | JumpTo(tag: Tag)
    | JumpCc(cc: Cc, tag: Tag)
    | Return
    | Move(src: Gpr, dst: Gpr)
    | MoveImm(imm: Word, dst: Gpr)
    | Clear(dst: Gpr)
    | LoadFrame(off: int, dst: Gpr)
    | StoreFrame(src: Gpr, off: int)
    | StoreOut(off: int)
    | ToXmm(n: nat)
    | LeaFrame(off: int, dst: Gpr)
    | LeaSymbol(sym: nat, dst: Gpr)
    | SaveXmm(n: nat, off: int)
    | SaveVector(n: nat, off: int)
    | LoadPtr(off: int, size: nat, uns: bool)
    | StorePtr(off: int, size: nat)
    | LoadSym(sym: nat, size: nat, uns: bool)
    | StoreSym(sym: nat, size: nat)
    | Combine(op: BinOp)
    | Increment
    | Decrement
    | SignExtend
    | Divide
    | ShiftBy(left: bool, count: Word)
    | ShiftByCl(left: bool)
    | Compare
    | Test(r: Gpr)
    | SetCc(cc: Cc)
    | ZeroExtendByte
    | Widen(size: nat, uns: bool)
    | SetVectorCount(n: nat)
    | CallName(name: nat, kinds: seq<Arg>)
    | CallR11(kinds: seq<Arg>)
    | PushBp
    | PopBp
    | MoveSpBp
    | MoveBpSp
    | SubSp(bytes: int)
    | AddSp(bytes: int)

  type Cells = map<int, Word>

  /** The two words the last comparison compared. */
  datatype Flags = Flags(a: Word, b: Word)

  datatype Machine = Machine(
    gpr: map<Gpr, Word>,
    xmm: map<nat, Word>,
    bp: Word,
    sp: int,
    flags: Option<Flags>,
    stack: Cells,
    trace: Trace)

  /** The outside world, how many bytes below %rbp belong to the locals, and which cells of them are slots. */
  datatype World = World(env: Env, base: nat, cells: set<int>)

  datatype XState =
    | Going(pc: nat, m: Machine)
    | Returned(value: Word, m: Machine, to: Word)
    | Faulted

  // ----- the stack -----

  predicate Apart(x: int, y: int) {
    x + 8 <= y || y + 8 <= x
  }

  /** Writing a cell destroys the cells it overlaps. */
  function Put(stack: Cells, k: int, w: Word): Cells {
    (map x | x in stack && Apart(x, k) :: stack[x])[k := w]
  }

  predicate IsLocal(base: nat, k: int) {
    0 <= k + base && k + 8 <= 0
  }

  /** The part of the stack that the IR calls its slots. */
  function Locals(w: World, stack: Cells): Slots {
    map k | k in stack && k in w.cells :: stack[k]
  }

  /** What a cell holds is no longer known. */
  function Forget(stack: Cells, k: int): Cells {
    map x | x in stack && Apart(x, k) :: stack[x]
  }

  predicate InFrame(m: Machine, off: int) {
    m.bp + off >= m.sp
  }

  // ----- operations on words -----

  predicate Compares(cc: Cc, f: Flags) {
    match cc
    case E => f.a == f.b
    case NE => f.a != f.b
    case L => f.a < f.b
    case LE => f.a <= f.b
    case G => f.a > f.b
    case GE => f.a >= f.b
  }

  function PutByte(w: Word, b: nat): Word
    requires b < 256
  {
    Wrap(Unsigned(w) - Unsigned(w) % 256 + b)
  }

  function LowByte(w: Word): (b: Word)
    ensures 0 <= b < 256
  {
    Unsigned(w) % 256
  }

  /** The low `size` bytes, zero- or sign-extended to a word. */
  function Extended(w: Word, size: nat, uns: bool): Word {
    var span := if size == 1 then 0x100 else if size == 2 then 0x1_0000 else if size == 4 then 0x1_0000_0000 else TWO64;
    var low := Unsigned(w) % span;
    if (uns && span < TWO64) || low < span / 2 then low else low - span
  }

  /** idivq: the 128-bit dividend is in rdx:rax; a zero divisor or a quotient that does not fit faults. */
  function Quotient(high: Word, low: Word, divisor: Word): Option<(Word, Word)> {
    var dividend := high * TWO64 + Unsigned(low);
    if divisor == 0 then None
    else
      var q := TruncDiv(dividend, divisor);
      if -TWO63 <= q < TWO63 then Some((q, Wrap(TruncMod(dividend, divisor)))) else None
  }

  // ----- calls -----

  const ARG_REGS: seq<Gpr> := [RDI, RSI, RDX, RCX, R8, R9]

  predicate Preserved(r: Gpr) {
    r in {RBX, R12, R13, R14, R15}
  }

  function AtPlace(m: Machine, p: Arguments.Place): Option<Word> {
    match p
    case InReg(n) => if n < 6 && ARG_REGS[n] in m.gpr then Some(m.gpr[ARG_REGS[n]]) else None
    case InXmm(n) => if n in m.xmm then Some(m.xmm[n]) else None
    case OnStack(off) => if m.sp + off in m.stack then Some(m.stack[m.sp + off]) else None
  }

  function ArgAt(m: Machine, kinds: seq<Arg>, i: nat): Option<Word>
    requires i < |kinds|
  {
    AtPlace(m, Arguments.Places(kinds)[i])
  }

  /** The first `n` arguments of a call. */
  function ArgsAt(m: Machine, kinds: seq<Arg>, n: nat): Option<seq<Word>>
    requires n <= |kinds|
  {
    if n == 0 then Some([])
    else
      var before, last := ArgsAt(m, kinds, n - 1), ArgAt(m, kinds, n - 1);
      if before.Some? && last.Some? then Some(before.value + [last.value]) else None
  }

  function StackCells(kinds: seq<Arg>): nat {
    Arguments.TakenBy(kinds).stack
  }

  /** The callee sees its arguments and the shared locals. It leaves only callee-saved registers, the result
      in rax, the stack above its own arguments, and whatever it makes of the shared locals. */
  function AfterCall(w: World, m: Machine, kinds: seq<Arg>, result: CallResult): Machine {
    var limit := m.sp + 8 * StackCells(kinds);
    m.(gpr := (map r | r in m.gpr && Preserved(r) :: m.gpr[r])[RAX := result.value],
       xmm := map[],
       flags := None,
       stack := (map k | k in m.stack && k >= limit && k !in w.cells :: m.stack[k]) + result.slots)
  }

  function DoCall(w: World, m: Machine, target: Target, kinds: seq<Arg>): Option<Machine> {
    var args := ArgsAt(m, kinds, |kinds|);
    if m.sp % 16 != 0 || args.None? then None
    else
      var slots := Locals(w, m.stack);
      var result := Answer(w.env, m.trace, target, args.value, slots);
      Some(AfterCall(w, m, kinds, result).(trace := m.trace + [Called(target, args.value, Shown(w.env, slots))]))
  }

  // ----- one instruction that falls through -----

  function SetGpr(m: Machine, r: Gpr, w: Word): Machine {
    m.(gpr := m.gpr[r := w])
  }

  /** Arithmetic leaves the flags unknown. */
  function SetGprFlags(m: Machine, r: Gpr, w: Word): Machine {
    m.(gpr := m.gpr[r := w], flags := None)
  }

  function DoLoadPtr(w: World, m: Machine, address: Word, size: nat, uns: bool): Option<Machine> {
    var k := w.env.alias(address);
    if !Accessible(w.env, address) then None
    else if k.None? then Some(SetGpr(m, RCX, w.env.memory(m.trace, address, size, uns)))
    else if k.value in m.stack then Some(SetGpr(m, RCX, w.env.readPart(m.stack[k.value], address, size, uns)))
    else None
  }

  function DoStorePtr(w: World, m: Machine, address: Word, value: Word, size: nat): Option<Machine> {
    var k := w.env.alias(address);
    var m' := m.(trace := m.trace + [Stored(address, size, value)]);
    if !Accessible(w.env, address) then None
    else if k.None? then Some(m')
    else if k.value in m.stack then
      Some(m'.(stack := Put(m.stack, k.value, w.env.writePart(m.stack[k.value], address, value, size))))
    else None
  }

  /** A whole vector register: what is known of it in the lower of two cells. */
  function VectorPut(m: Machine, n: nat, k: int): Cells {
    var stack := Forget(Forget(m.stack, k + 8), k);
    if n in m.xmm then stack[k := m.xmm[n]] else stack
  }

  function Do(w: World, x: Asm, m: Machine): Option<Machine> {
    match x
    case Lab(_) => Some(m)
    case Move(src, dst) => if src in m.gpr then Some(SetGpr(m, dst, m.gpr[src])) else None
    case MoveImm(i, dst) => Some(SetGpr(m, dst, i))
    case Clear(dst) => Some(SetGprFlags(m, dst, 0))
    case LoadFrame(off, dst) =>
      if InFrame(m, off) && m.bp + off in m.stack then Some(SetGpr(m, dst, m.stack[m.bp + off])) else None
    case StoreFrame(src, off) =>
      if InFrame(m, off) && src in m.gpr then Some(m.(stack := Put(m.stack, m.bp + off, m.gpr[src]))) else None
    case StoreOut(off) =>
      if off >= 0 && RAX in m.gpr then Some(m.(stack := Put(m.stack, m.sp + off, m.gpr[RAX]))) else None
    case ToXmm(n) => if RAX in m.gpr then Some(m.(xmm := m.xmm[n := m.gpr[RAX]])) else None
    case LeaFrame(off, dst) => Some(SetGpr(m, dst, w.env.slotAddress(m.bp + off)))
    case LeaSymbol(sym, dst) => Some(SetGpr(m, dst, w.env.symbolAddress(sym)))
    case SaveXmm(n, off) =>
      if InFrame(m, off) && n in m.xmm then Some(m.(stack := Put(m.stack, m.bp + off, m.xmm[n]))) else None
    case SaveVector(n, off) =>
      if InFrame(m, off) then Some(m.(stack := VectorPut(m, n, m.bp + off))) else None
    case LoadPtr(off, size, uns) =>
      if RAX in m.gpr then DoLoadPtr(w, m, Wrap(m.gpr[RAX] + off), size, uns) else None
    case StorePtr(off, size) =>
      if RAX in m.gpr && RCX in m.gpr then DoStorePtr(w, m, Wrap(m.gpr[RAX] + off), m.gpr[RCX], size) else None
    case LoadSym(sym, size, uns) => Some(SetGpr(m, RAX, w.env.global(m.trace, sym, size, uns)))
    case StoreSym(sym, size) =>
      if RAX in m.gpr then Some(m.(trace := m.trace + [GlobalStored(sym, size, m.gpr[RAX])])) else None
    case Combine(op) =>
      if RAX in m.gpr && RCX in m.gpr && Alu(op, m.gpr[RAX], m.gpr[RCX]).Some?
      then Some(SetGprFlags(m, RAX, Alu(op, m.gpr[RAX], m.gpr[RCX]).value)) else None
    case Increment => if RAX in m.gpr then Some(SetGprFlags(m, RAX, Wrap(m.gpr[RAX] as int + 1))) else None
    case Decrement => if RAX in m.gpr then Some(SetGprFlags(m, RAX, Wrap(m.gpr[RAX] as int - 1))) else None
    case SignExtend => if RAX in m.gpr then Some(SetGpr(m, RDX, if m.gpr[RAX] < 0 then -1 else 0)) else None
    case Divide =>
      if !({RAX, RCX, RDX} <= m.gpr.Keys) then None
      else
        var q := Quotient(m.gpr[RDX], m.gpr[RAX], m.gpr[RCX]);
        if q.Some? then Some(SetGprFlags(SetGpr(m, RAX, q.value.0), RDX, q.value.1)) else None
    case ShiftBy(left, c) =>
      if RAX in m.gpr then Some(SetGprFlags(m, RAX, if left then ShiftLeft(m.gpr[RAX], c)
                  else ShiftRight(m.gpr[RAX], c))) else None
    case ShiftByCl(left) =>
      if RAX in m.gpr && RCX in m.gpr
      then Some(SetGprFlags(m, RAX, if left then ShiftLeft(m.gpr[RAX], LowByte(m.gpr[RCX]))
                  else ShiftRight(m.gpr[RAX], LowByte(m.gpr[RCX]))))
      else None
    case Compare => if RAX in m.gpr && RCX in m.gpr then Some(m.(flags := Some(Flags(m.gpr[RAX], m.gpr[RCX]))))
                else None
    case Test(r) => if r in m.gpr then Some(m.(flags := Some(Flags(m.gpr[r], 0)))) else None
    case SetCc(cc) =>
      if RAX in m.gpr && m.flags.Some?
      then Some(SetGpr(m, RAX, PutByte(m.gpr[RAX], if Compares(cc, m.flags.value) then 1 else 0))) else None
    case ZeroExtendByte => if RAX in m.gpr then Some(SetGpr(m, RAX, LowByte(m.gpr[RAX]))) else None
    case Widen(size, uns) => if RAX in m.gpr then Some(SetGpr(m, RAX, Extended(m.gpr[RAX], size, uns))) else None
    case SetVectorCount(n) =>
      if RAX in m.gpr && n < 256 then Some(SetGpr(m, RAX, PutByte(m.gpr[RAX], n))) else Some(m)
    case CallName(name, kinds) => DoCall(w, m, Named(name), kinds)
    case CallR11(kinds) => if R11 in m.gpr then DoCall(w, m, At(m.gpr[R11]), kinds) else None
    case PushBp => Some(m.(sp := m.sp - 8, stack := Put(m.stack, m.sp - 8, m.bp)))
    case PopBp => if m.sp in m.stack then Some(m.(sp := m.sp + 8, bp := m.stack[m.sp])) else None
    case MoveSpBp => Some(m.(bp := Wrap(m.sp)))
    case MoveBpSp => Some(m.(sp := m.bp))
    case SubSp(n) => Some(m.(sp := m.sp - n, flags := None))
    case AddSp(n) => Some(m.(sp := m.sp + n, flags := None))
    case _ => None
  }

  // ----- the machine -----

  /** Index of the first label `tag`, or |asm|. */
  function Where(asm: seq<Asm>, tag: Tag): (i: nat)
    ensures i <= |asm|
    ensures i < |asm| ==> asm[i] == Lab(tag)
    ensures forall j :: 0 <= j < i ==> asm[j] != Lab(tag)
  {
    if asm == [] then 0
    else if asm[0] == Lab(tag) then 0
    else
      var i := Where(asm[1..], tag);
      assert forall j :: 1 <= j < 1 + i ==> asm[j] == asm[1..][j - 1];
      1 + i
  }

  function XStep(w: World, asm: seq<Asm>, s: XState): XState {
    if !s.Going? then s
    else if s.pc >= |asm| then Faulted
    else
      match asm[s.pc]
      case JumpTo(t) => Going(Where(asm, t) + 1, s.m)
      case JumpCc(cc, t) =>
        if s.m.flags.None? then Faulted
        else if Compares(cc, s.m.flags.value) then Going(Where(asm, t) + 1, s.m)
        else Going(s.pc + 1, s.m)
      case Return =>
        if RAX in s.m.gpr && s.m.sp in s.m.stack
        then Returned(s.m.gpr[RAX], s.m.(sp := s.m.sp + 8), s.m.stack[s.m.sp]) else Faulted
      case x =>
        var m' := Do(w, x, s.m);
        if m'.Some? then Going(s.pc + 1, m'.value) else Faulted
  }

  function XSteps(w: World, asm: seq<Asm>, s: XState, n: nat): XState
    decreases n
  {
    if n == 0 then s else XSteps(w, asm, XStep(w, asm, s), n - 1)
  }

  // ----- running straight-line code -----

  function RunAll(w: World, xs: seq<Asm>, m: Machine): Option<Machine> {
    if xs == [] then Some(m)
    else
      var m' := Do(w, xs[0], m);
      if m'.Some? then RunAll(w, xs[1..], m'.value) else None
  }

  lemma {:induction false} RunAppend(w: World, xs: seq<Asm>, ys: seq<Asm>, m: Machine)
    requires RunAll(w, xs, m).Some?
    ensures RunAll(w, xs + ys, m) == RunAll(w, ys, RunAll(w, xs, m).value)
  {
    if xs == [] {
      assert xs + ys == ys;
    } else {
      var m' := Do(w, xs[0], m);
      RunAppend(w, xs[1..], ys, m'.value);
      assert (xs + ys)[1..] == xs[1..] + ys;
    }
  }

  lemma {:induction false} XStepsAdd(w: World, asm: seq<Asm>, s: XState, i: nat, j: nat)
    ensures XSteps(w, asm, s, i + j) == XSteps(w, asm, XSteps(w, asm, s, i), j)
    decreases i
  {
    if i > 0 { XStepsAdd(w, asm, XStep(w, asm, s), i - 1, j); }
  }

  /** Code that runs straight through takes one step an instruction. */
  lemma {:induction false} StraightSteps(w: World, asm: seq<Asm>, pc: nat, xs: seq<Asm>, m: Machine)
    requires pc + |xs| <= |asm| && asm[pc..pc + |xs|] == xs
    requires RunAll(w, xs, m).Some?
    ensures XSteps(w, asm, Going(pc, m), |xs|) == Going(pc + |xs|, RunAll(w, xs, m).value)
    decreases |xs|
  {
    if xs != [] {
      var m' := Do(w, xs[0], m);
      assert asm[pc] == xs[0];
      assert XStep(w, asm, Going(pc, m)) == Going(pc + 1, m'.value);
      assert asm[pc + 1..pc + 1 + |xs[1..]|] == xs[1..];
      StraightSteps(w, asm, pc + 1, xs[1..], m'.value);
    }
  }
}
