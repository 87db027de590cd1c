/** The three-address IR and its small-step machine.

    An instruction list is a `Code`. A machine state holds the program counter, the virtual registers,
    the 8-byte stack slots keyed by frame offset, and the trace of stores and calls so far. Everything
    outside the function (memory behind pointers, globals, callees, incoming arguments) is an `Env`:
    arbitrary functions of the history, so a theorem about every `Env` is one about every outside world.

    Reading a virtual register that was never written, a trapping division, a jump without a label and
    running off the end of the list lead to `Trap`. */
module IR {
  import opened Word64

  type Label = nat

  datatype Opnd = Reg(v: nat) | Imm(i: Word)

  /** Where an incoming argument waits at function entry. */
  datatype Incoming = ArgReg(n: nat) | ArgStack(n: nat) | ArgXmm(n: nat)

  /** How an argument is passed: in a vector register rather than a general one, or on the stack in any case. */
  datatype Arg = Arg(fp: bool, onStack: bool)

  datatype Callee = Direct(name: nat) | Indirect(target: Opnd)

  datatype Inst =
    | Mark(l: Label)
    | Const(d: nat, c: Word)
    | Symbol(d: nat, sym: nat)
    | AddrGlobal(d: nat, sym: nat)
    | Mov(d: nat, s: Opnd)
    | Load(d: nat, p: Opnd, off: int, size: nat, uns: bool)
    | Store(p: Opnd, off: int, s: Opnd, size: nat)
    | LoadStack(d: nat, slot: int)
    | StoreStack(slot: int, s: Opnd)
    | StoreArg(slot: int, arg: Incoming)
    | AddrStack(d: nat, slot: int)
    | Bin(op: BinOp, d: nat, a: Opnd, b: Opnd)
    | Jmp(to: Label)
    | JmpIf(nonzero: bool, cond: Opnd, to: Label)
    | Call(d: nat, callee: Callee, args: seq<Opnd>, kinds: seq<Arg>)
    | Ret(s: Opnd)
    | LoadGlobal(d: nat, sym: nat, size: nat, uns: bool)
    | StoreGlobal(sym: nat, s: Opnd, size: nat)
    | Cast(d: nat, s: Opnd, size: nat, uns: bool)

  type Code = seq<Inst>

  type Regs = map<nat, Word>
  type Slots = map<int, Word>

  datatype Target = Named(name: nat) | At(address: Word)

  datatype Event =
    | Stored(address: Word, size: nat, value: Word)
    | GlobalStored(sym: nat, size: nat, value: Word)
    | Called(target: Target, args: seq<Word>, slots: Slots)

  type Trace = seq<Event>

  datatype CallResult = CallResult(value: Word, slots: Slots)

  /** The world outside the function, as functions of what the function has done so far.
      `alias` says which stack slot, if any, a pointer access to an address reaches, `valid` whether there is
      memory at another address, and `shared` which slots a callee can see and change. */
  datatype Env = Env(
    alias: Word -> Option<int>,
    valid: Word -> bool,
    shared: int -> bool,
    readPart: (Word, Word, nat, bool) -> Word,
    writePart: (Word, Word, Word, nat) -> Word,
    memory: (Trace, Word, nat, bool) -> Word,
    global: (Trace, nat, nat, bool) -> Word,
    slotAddress: int -> Word,
    symbolAddress: nat -> Word,
    incoming: Incoming -> Word,
    cast: (Word, nat, bool) -> Word,
    callee: (Trace, Target, seq<Word>, Slots) -> CallResult)

  datatype Data = Data(regs: Regs, slots: Slots, trace: Trace)

  datatype State =
    | Run(pc: nat, data: Data)
    | Done(value: Word, trace: Trace)
    | Trap

  /** What one instruction does, before the program counter is known. */
  datatype Outcome = Next(data: Data) | Goto(to: Label) | Halt(value: Word) | Stuck

  // ----- reading the state -----

  function Val(regs: Regs, o: Opnd): Option<Word> {
    match o
    case Imm(i) => Some(i)
    case Reg(v) => if v in regs then Some(regs[v]) else None
  }

  function Vals(regs: Regs, os: seq<Opnd>): Option<seq<Word>> {
    if os == [] then Some([])
    else
      var first := Val(regs, os[0]);
      var rest := Vals(regs, os[1..]);
      if first.Some? && rest.Some? then Some([first.value] + rest.value) else None
  }

  /** A slot nobody has written yet reads as 0; any other initial content is covered by the
      arbitrary initial slots of a run. */
  function Slot(slots: Slots, k: int): Word {
    if k in slots then slots[k] else 0
  }

  // ----- one instruction -----

  function Write(d: Data, r: nat, w: Option<Word>): Outcome {
    if w.Some? then Next(d.(regs := d.regs[r := w.value])) else Stuck
  }

  function SetSlot(d: Data, k: int, w: Option<Word>): Outcome {
    if w.Some? then Next(d.(slots := d.slots[k := w.value])) else Stuck
  }

  /** Something lies at the address: a slot, or memory outside the frame. */
  predicate Accessible(env: Env, address: Word) {
    env.alias(address).Some? || env.valid(address)
  }

  function LoadVia(env: Env, d: Data, address: Word, size: nat, uns: bool): Word {
    var k := env.alias(address);
    if k.Some? then env.readPart(Slot(d.slots, k.value), address, size, uns)
    else env.memory(d.trace, address, size, uns)
  }

  function StoreVia(env: Env, d: Data, address: Word, size: nat, w: Word): Data {
    var k := env.alias(address);
    var slots := if k.Some? then d.slots[k.value := env.writePart(Slot(d.slots, k.value), address, w, size)]
                 else d.slots;
    Data(d.regs, slots, d.trace + [Stored(address, size, w)])
  }

  function TargetOf(regs: Regs, c: Callee): Option<Target> {
    match c
    case Direct(n) => Some(Named(n))
    case Indirect(o) => var a := Val(regs, o); if a.Some? then Some(At(a.value)) else None
  }

  /** The slots that a callee can see. */
  function Shown(env: Env, slots: Slots): Slots {
    map k | k in slots && env.shared(k) :: slots[k]
  }

  /** What a call returns, and the slots behind it: the callee leaves those it cannot see as they are. */
  function Answer(env: Env, trace: Trace, target: Target, args: seq<Word>, slots: Slots): (r: CallResult)
    ensures r.slots.Keys == slots.Keys
  {
    var result := env.callee(trace, target, args, Shown(env, slots));
    CallResult(result.value, slots + map k | k in result.slots && k in slots && env.shared(k) :: result.slots[k])
  }

  /** A callee sees the shared slots with what they hold, and changes no others. */
  lemma AnswerExact(env: Env, trace: Trace, target: Target, args: seq<Word>, slots: Slots, seen: Slots)
    requires forall k :: k in seen <==> k in slots && env.shared(k)
    requires forall k :: k in seen ==> seen[k] == slots[k]
    ensures var result, r := env.callee(trace, target, args, seen), Answer(env, trace, target, args, slots);
            && r.value == result.value && r.slots.Keys == slots.Keys
            && forall k :: k in slots ==>
                 r.slots[k] == if env.shared(k) && k in result.slots then result.slots[k] else slots[k]
  {
    var shown := Shown(env, slots);
    forall k: int ensures (k in seen <==> k in shown) && (k in seen ==> seen[k] == shown[k]) { }
    assert seen.Keys == shown.Keys;
    assert seen == shown;
  }

  function CallOut(env: Env, d: Data, r: nat, target: Target, args: seq<Word>): Data {
    var result := Answer(env, d.trace, target, args, d.slots);
    Data(d.regs[r := result.value], result.slots, d.trace + [Called(target, args, Shown(env, d.slots))])
  }

  function Branch(d: Data, nonzero: bool, w: Option<Word>, l: Label): Outcome {
    if w.None? then Stuck
    else if (w.value != 0) == nonzero then Goto(l)
    else Next(d)
  }

  function Arith(d: Data, op: BinOp, r: nat, a: Option<Word>, b: Option<Word>): Outcome {
    if a.Some? && b.Some? then Write(d, r, Alu(op, a.value, b.value)) else Stuck
  }

  function Exec(env: Env, inst: Inst, d: Data): Outcome {
    match inst
    case Mark(_) => Next(d)
    case Const(r, c) => Write(d, r, Some(c))
    case Symbol(r, sym) => Write(d, r, Some(env.symbolAddress(sym)))
    case AddrGlobal(r, sym) => Write(d, r, Some(env.symbolAddress(sym)))
    case Mov(r, s) => Write(d, r, Val(d.regs, s))
    case Load(r, p, off, size, uns) =>
      var a := Val(d.regs, p);
      if a.Some? && Accessible(env, Wrap(a.value + off))
      then Write(d, r, Some(LoadVia(env, d, Wrap(a.value + off), size, uns))) else Stuck
    case Store(p, off, s, size) =>
      var a, w := Val(d.regs, p), Val(d.regs, s);
      if a.Some? && w.Some? && Accessible(env, Wrap(a.value + off))
      then Next(StoreVia(env, d, Wrap(a.value + off), size, w.value)) else Stuck
    case LoadStack(r, k) => Write(d, r, Some(Slot(d.slots, k)))
    case StoreStack(k, s) => SetSlot(d, k, Val(d.regs, s))
    case StoreArg(k, arg) => SetSlot(d, k, Some(env.incoming(arg)))
    case AddrStack(r, k) => Write(d, r, Some(env.slotAddress(k)))
    case Bin(op, r, a, b) => Arith(d, op, r, Val(d.regs, a), Val(d.regs, b))
    case Jmp(l) => Goto(l)
    case JmpIf(nonzero, c, l) => Branch(d, nonzero, Val(d.regs, c), l)
    case Call(r, callee, args, _) =>
      var t, ws := TargetOf(d.regs, callee), Vals(d.regs, args);
      if t.Some? && ws.Some? then Next(CallOut(env, d, r, t.value, ws.value)) else Stuck
    case Ret(s) => var w := Val(d.regs, s); if w.Some? then Halt(w.value) else Stuck
    case LoadGlobal(r, sym, size, uns) => Write(d, r, Some(env.global(d.trace, sym, size, uns)))
    case StoreGlobal(sym, s, size) =>
      var w := Val(d.regs, s);
      if w.Some? then Next(d.(trace := d.trace + [GlobalStored(sym, size, w.value)])) else Stuck
    case Cast(r, s, size, uns) =>
      var w := Val(d.regs, s);
      if w.Some? then Write(d, r, Some(env.cast(w.value, size, uns))) else Stuck
  }

  // ----- the machine -----

  /** Index of the first mark of `l`, or |code|. */
  function Find(code: Code, l: Label): (i: nat)
    ensures i <= |code|
    ensures i < |code| ==> code[i] == Mark(l)
    ensures forall j :: 0 <= j < i ==> code[j] != Mark(l)
  {
    if code == [] then 0
    else if code[0] == Mark(l) then 0
    else
      var i := Find(code[1..], l);
      assert forall j :: 1 <= j < 1 + i ==> code[j] == code[1..][j - 1];
      1 + i
  }

  /** One step. A jump continues just behind the mark it names. */
  function Step(env: Env, code: Code, s: State): State {
    if !s.Run? then s
    else if s.pc >= |code| then Trap
    else
      match Exec(env, code[s.pc], s.data)
      case Next(d) => Run(s.pc + 1, d)
      case Goto(l) => Run(Find(code, l) + 1, s.data)
      case Halt(w) => Done(w, s.data.trace)
      case Stuck => Trap
  }

  function Steps(env: Env, code: Code, s: State, n: nat): State
    decreases n
  {
    if n == 0 then s else Steps(env, code, Step(env, code, s), n - 1)
  }

  /** A function starts with no virtual register written and arbitrary stack contents. */
  function Start(slots: Slots): State {
    Run(0, Data(map[], slots, []))
  }

  // ----- definitions and uses -----

  function Def(inst: Inst): Option<nat> {
    match inst
    case Const(d, _) => Some(d)
    case Symbol(d, _) => Some(d)
    case AddrGlobal(d, _) => Some(d)
    case Mov(d, _) => Some(d)
    case Load(d, _, _, _, _) => Some(d)
    case LoadStack(d, _) => Some(d)
    case AddrStack(d, _) => Some(d)
    case Bin(_, d, _, _) => Some(d)
    case Call(d, _, _, _) => Some(d)
    case LoadGlobal(d, _, _, _) => Some(d)
    case Cast(d, _, _, _) => Some(d)
    case _ => None
  }

  function RegsOf(o: Opnd): set<nat> {
    if o.Reg? then {o.v} else {}
  }

  function RegsOfAll(os: seq<Opnd>): set<nat> {
    set o | o in os && o.Reg? :: o.v
  }

  function Uses(inst: Inst): set<nat> {
    match inst
    case Mov(_, s) => RegsOf(s)
    case Load(_, p, _, _, _) => RegsOf(p)
    case Store(p, _, s, _) => RegsOf(p) + RegsOf(s)
    case StoreStack(_, s) => RegsOf(s)
    case Bin(_, _, a, b) => RegsOf(a) + RegsOf(b)
    case JmpIf(_, c, _) => RegsOf(c)
    case Call(_, callee, args, _) => (if callee.Indirect? then RegsOf(callee.target) else {}) + RegsOfAll(args)
    case Ret(s) => RegsOf(s)
    case StoreGlobal(_, s, _) => RegsOf(s)
    case Cast(_, s, _, _) => RegsOf(s)
    case _ => {}
  }

  predicate IsJump(inst: Inst) {
    inst.Jmp? || inst.JmpIf?
  }

  /** An instruction changes no register but the one it defines. */
  lemma OtherRegsUnchanged(env: Env, inst: Inst, d: Data, v: nat)
    requires Exec(env, inst, d).Next? && Def(inst) != Some(v)
    ensures var d' := Exec(env, inst, d).data;
            (v in d'.regs <==> v in d.regs) && (v in d.regs ==> d'.regs[v] == d.regs[v])
  {
  }

  lemma GotoIsJump(env: Env, inst: Inst, d: Data)
    requires Exec(env, inst, d).Goto?
    ensures IsJump(inst) && Exec(env, inst, d).to == inst.to
  {
  }
}
