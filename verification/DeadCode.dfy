/** Dead code elimination (`opt_dead_code_elimination`). */
module DeadCode {
  import opened Word64
  import opened IR
  import opened Simulation
  import opened LoweredForm
  import opened Deletion
  import opened Editing
  import opened Function

  /** Instructions that only write a register. A division counts, although it may trap. */
  predicate IsPure(inst: Inst) {
    inst.Const? || inst.Symbol? || inst.AddrGlobal? || inst.Mov? || inst.LoadStack? || inst.AddrStack? || inst.Bin?
  }

  ghost function UsedIn(code: Code): set<nat> {
    set i, v | 0 <= i < |code| && v in Uses(code[i]) :: v
  }

  predicate IsDead(used: set<nat>, inst: Inst) {
    IsPure(inst) && Def(inst).Some? && Def(inst).value !in used
  }

  ghost function Needed(code: Code): (keep: seq<bool>)
    ensures |keep| == |code|
  {
    seq(|code|, i requires 0 <= i < |code| => !IsDead(UsedIn(code), code[i]))
  }

  ghost function WithoutDeadCode(code: Code): Code {
    Filter(code, Needed(code))
  }

  method UsedRegs(code: Code) returns (used: set<nat>)
    ensures used == UsedIn(code)
  {
    used := {};
    for i := 0 to |code|
      invariant used == set j, v | 0 <= j < i && v in Uses(code[j]) :: v
    {
      used := used + Uses(code[i]);
    }
  }

  lemma WithoutDeadCodeIs(code: Code)
    ensures WithoutDeadCode(code) == Filter(code, Needed(code))
    ensures forall i :: 0 <= i < |code| ==> (Needed(code)[i] <==> !IsDead(UsedIn(code), code[i]))
  {
  }

  method DeadCodeElimination(fn: IRFunction) returns (changed: bool)
    modifies fn
    ensures fn.insts == WithoutDeadCode(old(fn.insts))
    ensures LeftOut(old(fn.insts), fn.insts, UnreadIn(old(fn.insts)))
    ensures !changed ==> fn.insts == old(fn.insts)
  {
    hide *;
    ghost var code := fn.insts;
    ghost var keep := Needed(code);
    ghost var i: nat := 0;
    WithoutDeadCodeIs(code);
    var used := UsedRegs(fn.insts);
    var pos := 0;
    changed := false;
    SweepStart(code, code, keep);
    while pos < |fn.insts|
      invariant Swept(code, code, keep, i, fn.insts, pos)
      invariant !changed ==> fn.insts == code
      decreases |fn.insts| - pos
    {
      SweepAt(code, code, keep, i, fn.insts, pos);
      if IsDead(used, fn.insts[pos]) {
        SweepDrop(code, code, keep, i, fn.insts, pos);
        fn.Remove(pos);
        changed := true;
      } else {
        SweepPast(code, code, keep, i, fn.insts, pos);
        pos := pos + 1;
      }
      i := i + 1;
    }
    SweepEnd(code, code, keep, i, fn.insts, pos);
    UnreadLeave(code);
  }

  // ----- unused registers are never looked at -----

  ghost predicate SameUsedRegs(used: set<nat>, d: Data, e: Data) {
    && d.slots == e.slots && d.trace == e.trace
    && forall v :: v in used ==> (v in d.regs <==> v in e.regs) && (v in d.regs ==> d.regs[v] == e.regs[v])
  }

  ghost function UsedAgree(code: Code): DataRelation {
    (i: nat, d: Data, e: Data) => SameUsedRegs(UsedIn(code), d, e)
  }

  lemma {:induction false} SameVals(used: set<nat>, d: Data, e: Data, os: seq<Opnd>)
    requires SameUsedRegs(used, d, e) && RegsOfAll(os) <= used
    ensures Vals(d.regs, os) == Vals(e.regs, os)
  {
    if os != [] {
      assert os[0] in os;
      assert RegsOfAll(os[1..]) <= RegsOfAll(os);
      SameVals(used, d, e, os[1..]);
    }
  }

  lemma WriteSame(used: set<nat>, d: Data, e: Data, r: nat, w: Word)
    requires SameUsedRegs(used, d, e)
    ensures SameUsedRegs(used, d.(regs := d.regs[r := w]), e.(regs := e.regs[r := w]))
  {
  }

  lemma SameVal(used: set<nat>, d: Data, e: Data, o: Opnd)
    requires SameUsedRegs(used, d, e) && RegsOf(o) <= used
    ensures Val(d.regs, o) == Val(e.regs, o)
  {
  }

  /** What an instruction that defines a register writes depends on the registers it reads only. */
  lemma SameDefinition(env: Env, used: set<nat>, inst: Inst, d: Data, e: Data)
    requires SameUsedRegs(used, d, e) && Uses(inst) <= used && Def(inst).Some? && !inst.Call?
    requires Exec(env, inst, d).Next?
    ensures Exec(env, inst, e).Next?
    ensures var r := Def(inst).value;
            && r in Exec(env, inst, d).data.regs
            && Exec(env, inst, d) == Next(d.(regs := d.regs[r := Exec(env, inst, d).data.regs[r]]))
            && Exec(env, inst, e) == Next(e.(regs := e.regs[r := Exec(env, inst, d).data.regs[r]]))
  {
    hide Alu, SameUsedRegs;
    forall o: Opnd | RegsOf(o) <= used ensures Val(d.regs, o) == Val(e.regs, o) { SameVal(used, d, e, o); }
    SameUsedRegsIs(used, d, e);
  }

  lemma SameUsedRegsIs(used: set<nat>, d: Data, e: Data)
    requires SameUsedRegs(used, d, e)
    ensures d.slots == e.slots && d.trace == e.trace
  {
  }

  lemma SameElsewhere(env: Env, used: set<nat>, inst: Inst, d: Data, e: Data)
    requires SameUsedRegs(used, d, e) && Uses(inst) <= used && (Def(inst).None? || inst.Call?)
    ensures var o, o' := Exec(env, inst, d), Exec(env, inst, e);
            if o.Next? then o'.Next? && SameUsedRegs(used, o.data, o'.data) else o' == o
  {
    if inst.Call? {
      SameVals(used, d, e, inst.args);
      hide Answer, Shown;
    } else {
      SameNoDefinition(env, used, inst, d, e);
      hide Exec, Uses, Def;
    }
  }

  /** An instruction that defines no register leaves them all, and does the same to slots and trace. */
  lemma SameNoDefinition(env: Env, used: set<nat>, inst: Inst, d: Data, e: Data)
    requires SameUsedRegs(used, d, e) && Uses(inst) <= used && Def(inst).None?
    ensures var o, o' := Exec(env, inst, d), Exec(env, inst, e);
            if o.Next? then o'.Next? && o.data.regs == d.regs && o'.data == o.data.(regs := e.regs) else o' == o
  {
    hide Alu, Wrap, SameUsedRegs;
    forall o: Opnd | RegsOf(o) <= used ensures Val(d.regs, o) == Val(e.regs, o) { SameVal(used, d, e, o); }
    SameUsedRegsIs(used, d, e);
  }

  lemma SameStuck(env: Env, used: set<nat>, inst: Inst, d: Data, e: Data)
    requires SameUsedRegs(used, d, e) && Uses(inst) <= used && Def(inst).Some? && !inst.Call?
    requires !Exec(env, inst, d).Next?
    ensures Exec(env, inst, e) == Exec(env, inst, d)
  {
    hide Alu, SameUsedRegs;
    forall o: Opnd | RegsOf(o) <= used ensures Val(d.regs, o) == Val(e.regs, o) { SameVal(used, d, e, o); }
    SameUsedRegsIs(used, d, e);
  }

  /** An instruction that reads only used registers does the same on both sides. */
  lemma SameOutcome(env: Env, used: set<nat>, inst: Inst, d: Data, e: Data)
    requires SameUsedRegs(used, d, e) && Uses(inst) <= used
    ensures var o, o' := Exec(env, inst, d), Exec(env, inst, e);
            if o.Next? then o'.Next? && SameUsedRegs(used, o.data, o'.data) else o' == o
  {
    hide Exec, SameUsedRegs, Uses;
    if Def(inst).None? || inst.Call? {
      SameElsewhere(env, used, inst, d, e);
    } else if Exec(env, inst, d).Next? {
      SameDefinition(env, used, inst, d, e);
      var r := Def(inst).value;
      WriteSame(used, d, e, r, Exec(env, inst, d).data.regs[r]);
    } else {
      SameStuck(env, used, inst, d, e);
    }
  }

  lemma PureOutcome(env: Env, inst: Inst, d: Data)
    requires IsPure(inst)
    ensures var o := Exec(env, inst, d);
            o.Stuck? || (o.Next? && o.data.slots == d.slots && o.data.trace == d.trace)
  {
  }

  lemma DeadCodeStep(env: Env, code: Code, i: nat, d: Data, e: Data)
    requires i < |code| && SameUsedRegs(UsedIn(code), d, e)
    ensures Deletable(env, code, Needed(code), UsedAgree(code), i, d, e)
  {
    var used, inst := UsedIn(code), code[i];
    assert Uses(inst) <= used;
    var o := Exec(env, inst, d);
    hide Exec, UsedIn, Uses;
    if IsDead(used, inst) {
      PureOutcome(env, inst, d);
      if o.Next? {
        forall v | v in used ensures (v in o.data.regs <==> v in e.regs)
            && (v in e.regs ==> o.data.regs[v] == e.regs[v]) {
          OtherRegsUnchanged(env, inst, d, v);
        }
      }
    } else {
      SameOutcome(env, used, inst, d, e);
    }
  }

  /** Removing computations whose results nobody uses changes no run. */
  lemma DeadCodePreserves(env: Env, code: Code)
    requires Lowered(code)
    ensures Preserves(env, code, WithoutDeadCode(code)) && Lowered(WithoutDeadCode(code))
        && NoNew(code, WithoutDeadCode(code))
    ensures Taken(WithoutDeadCode(code)) <= Taken(code)
  {
    hide Lowered;
    LoweredMarks(code);
    assert KeepsTargets(code, Needed(code));
    forall i: nat, d: Data, e: Data | i < |code| && d.trace == e.trace && UsedAgree(code)(i, d, e)
      ensures Deletable(env, code, Needed(code), UsedAgree(code), i, d, e)
    {
      DeadCodeStep(env, code, i, d, e);
    }
    DeletionPreserves(env, code, Needed(code), UsedAgree(code));
    FilterKeepsForm(code, Needed(code));
    FilterTaken(code, Needed(code));
  }

  // ----- which instructions go -----

  /** The instruction has the register as an operand. */
  predicate ReadsReg(inst: Inst, v: nat) {
    match inst
    case Mov(_, s) => s == Reg(v)
    case Load(_, p, _, _, _) => p == Reg(v)
    case Store(p, _, s, _) => p == Reg(v) || s == Reg(v)
    case StoreStack(_, s) => s == Reg(v)
    case Bin(_, _, a, b) => a == Reg(v) || b == Reg(v)
    case JmpIf(_, c, _) => c == Reg(v)
    case Call(_, callee, args, _) => callee == Indirect(Reg(v)) || Reg(v) in args
    case Ret(s) => s == Reg(v)
    case StoreGlobal(_, s, _) => s == Reg(v)
    case Cast(_, s, _, _) => s == Reg(v)
    case _ => false
  }

  /** A constant, an address, a move, a load from a slot or an operation whose result no instruction reads. */
  ghost predicate Unread(code: Code, j: nat) {
    && j < |code|
    && (match code[j]
        case Const(d, _) => NoneReads(code, d)
        case Symbol(d, _) => NoneReads(code, d)
        case AddrGlobal(d, _) => NoneReads(code, d)
        case Mov(d, _) => NoneReads(code, d)
        case LoadStack(d, _) => NoneReads(code, d)
        case AddrStack(d, _) => NoneReads(code, d)
        case Bin(_, d, _, _) => NoneReads(code, d)
        case _ => false)
  }

  ghost predicate NoneReads(code: Code, v: nat) {
    forall i :: 0 <= i < |code| ==> !ReadsReg(code[i], v)
  }

  ghost function UnreadIn(code: Code): set<nat> {
    set j: nat | j < |code| && Unread(code, j)
  }

  lemma ReadsAreUses(inst: Inst, v: nat)
    ensures ReadsReg(inst, v) <==> v in Uses(inst)
  {
  }

  lemma UnreadIsDead(code: Code, j: nat)
    requires j < |code|
    ensures Unread(code, j) <==> IsDead(UsedIn(code), code[j])
  {
    hide ReadsReg, Uses;
    forall i: nat, v: nat | i < |code| ensures ReadsReg(code[i], v) <==> v in Uses(code[i]) {
      ReadsAreUses(code[i], v);
    }
  }

  lemma UnreadLeave(code: Code)
    ensures LeftOut(code, WithoutDeadCode(code), UnreadIn(code))
  {
    hide Unread, IsDead, LeftOut, UsedIn;
    forall j: nat | j < |code| ensures Needed(code)[j] <==> j !in UnreadIn(code) { UnreadIsDead(code, j); }
    hide UnreadIn;
    FilterLeaves(code, Needed(code), UnreadIn(code));
  }
}
