/** Compiled code behaves as the IR it was generated from, on every run, and keeps the calling convention. */
module Compiled {
  import opened Word64
  import opened IR
  import opened Simulation
  import opened LoweredForm
  import opened Liveness
  import LinearScan
  import opened RegAlloc
  import opened X86
  import opened CodeGen
  import opened CodeLayout
  import opened Residence
  import opened Selection
  import opened BlockSteps
  import opened CallSteps

  // ----- one instruction of the IR -----

  lemma FallThrough(u: Compilation, k: nat, d: Data, m: Machine, d': Data)
    requires Good(u) && Related(u, k, d, m) && k < |u.code| && !u.code[k].JmpIf?
    requires Exec(u.w.env, u.code[k], d) == Next(d')
    ensures Arrives(u, k, m, Translated(u.a, u.w.base, u.code[k]), d')
  {
    ByKind(u.w.env, u.code[k], d, d');
    hide Good, Related, Translated, Exec, Arrives;
    match u.code[k]
    case Const(dst, c) => Constants(u, k, d, m, dst, c);
    case Mov(dst, s) => Moves(u, k, d, m, dst, s, Val(d.regs, s).value);
    case Bin(_, _, _, _) => Results(u, k, d, m, d');
    case LoadGlobal(_, _, _, _) => GlobalLoads(u, k, d, m, d');
    case Symbol(_, _) => Addresses(u, k, d, m, d');
    case AddrGlobal(_, _) => GlobalAddresses(u, k, d, m, d');
    case AddrStack(_, _) => Addresses(u, k, d, m, d');
    case LoadStack(_, _) => Addresses(u, k, d, m, d');
    case Load(_, _, _, _, _) => Pointers(u, k, d, m, d');
    case Cast(_, _, _, _) => Casts(u, k, d, m, d');
    case Call(_, _, _, _) => Calls(u, k, d, m, d');
    case StoreStack(_, _) => SlotStores(u, k, d, m, d');
    case StoreArg(_, _) => ArgStores(u, k, d, m, d');
    case Store(_, _, _, _) => PointerStores(u, k, d, m, d');
    case StoreGlobal(_, _, _) => GlobalStores(u, k, d, m, d');
    case Mark(_) => Marks(u, k, d, m, d');
  }

  lemma ByKind(env: Env, inst: Inst, d: Data, d': Data)
    requires Exec(env, inst, d) == Next(d')
    ensures !inst.Jmp? && !inst.Ret?
    ensures inst.Const? ==> d' == d.(regs := d.regs[inst.d := inst.c])
    ensures inst.Mov? ==> Val(d.regs, inst.s).Some? && d' == d.(regs := d.regs[inst.d := Val(d.regs, inst.s).value])
  {
  }

  /** Behind a mark, or behind an instruction that stores no argument, no arguments wait. */
  lemma LandedArgs(u: Compilation, j: nat, m: Machine)
    requires 0 < j <= |u.code| && !u.code[j - 1].StoreArg?
    ensures ArgsWait(u, j, m)
  {
  }

  /** Control that goes from `k` to `j` without writing a register keeps the machines related. */
  lemma Lands(u: Compilation, k: nat, j: nat, d: Data, m: Machine, m1: Machine)
    requires Good(u) && Related(u, k, d, m) && Scratched(m, m1)
    requires k < |u.code| && Def(u.code[k]) == None && Follows(u.code, k, j)
    requires 0 < j <= |u.code| && !u.code[j - 1].StoreArg?
    ensures Related(u, j, d, m1)
  {
    hide *;
    RelatedIs(u, k, d, m);
    ScratchedSettled(u, d, m, m1);
    ScratchedHeld(u, k, d.regs, m, m1);
    StaysHeld(u, k, j, d.regs, m1);
    LandedArgs(u, j, m1);
    RelatedIs(u, j, d, m1);
  }

  /** Testing an operand sets the flags from it. */
  lemma TestRuns(u: Compilation, m: Machine, o: Opnd, w: Word)
    requires OperandAt(u, m, o, w)
    ensures var m1 := RunAll(u.w, TestFor(u.a, u.w.base, o), m);
            m1.Some? && Scratched(m, m1.value) && m1.value.flags == Some(Flags(w, 0))
  {
    var r := RegOfOperand(u.a, o);
    if r != NONE {
      RunOne(u.w, X86.Test(PHYS[r]), m);
    } else {
      LoadComputes(u, m, o, RAX, w);
      RunThen(u.w, LoadTo(u.a, u.w.base, o, RAX), X86.Test(RAX), m);
    }
  }

  // ----- fused comparisons -----

  lemma CountNext(code: Code, k: nat, v: nat)
    requires 0 < k <= |code|
    ensures ReadCount(code, k, v) >= ReadCount(code, k - 1, v) + (if v in Uses(code[k - 1]) then 1 else 0)
  {
    hide Uses, Reads;
    ReadsOnce(code[k - 1], v);
  }

  lemma ReadsOnce(inst: Inst, v: nat)
    ensures v in Uses(inst) ==> multiset(Reads(inst))[v] >= 1
  {
    hide Uses, Reads;
    assert v in Uses(inst) ==> v in Reads(inst);
  }

  lemma {:induction false} CountPositive(code: Code, k: nat, v: nat, i: nat)
    requires i < k <= |code| && v in Uses(code[i])
    ensures ReadCount(code, k, v) >= 1
    decreases k
  {
    hide Uses, ReadCount;
    CountNext(code, k, v);
    if i < k - 1 { CountPositive(code, k - 1, v, i); }
  }

  /** A register read by two instructions is counted twice. */
  lemma {:induction false} CountTwo(code: Code, k: nat, v: nat, i: nat, j: nat)
    requires i < j < k <= |code| && v in Uses(code[i]) && v in Uses(code[j])
    ensures ReadCount(code, k, v) >= 2
    decreases k
  {
    hide Uses, ReadCount;
    CountNext(code, k, v);
    if j < k - 1 { CountTwo(code, k - 1, v, i, j); } else { CountPositive(code, k - 1, v, i); }
  }

  lemma OnlyReader(code: Code, k: nat, j: nat)
    requires Fused(code, k) && j < |code| && code[k].d in Uses(code[j])
    ensures j == k + 1
  {
    var v := code[k].d;
    assert v in Uses(code[k + 1]);
    hide Uses, ReadCount;
    if j < k + 1 { CountTwo(code, |code|, v, j, k + 1); }
    if j > k + 1 { CountTwo(code, |code|, v, k + 1, j); }
  }

  lemma OnlyFallsIn(code: Code, k: nat, p: nat)
    requires Fused(code, k) && p < |code| && Follows(code, p, k + 1)
    ensures p == k
  {
  }

  /** The result of a fused comparison is live nowhere but at the branch. */
  lemma {:induction false} FusedPath(code: Code, k: nat, path: seq<nat>)
    requires Fused(code, k) && LiveAlong(code, code[k].d, path)
    ensures path[0] == k + 1
    decreases |path|
  {
    FusedFacts(code, k);
    hide Fused, Follows, Uses;
    if |path| == 1 {
      OnlyReader(code, k, path[0]);
    } else {
      FusedPath(code, k, path[1..]);
      OnlyFallsIn(code, k, path[0]);
    }
  }

  lemma FusedDead(code: Code, k: nat, j: nat)
    requires Fused(code, k) && Follows(code, k + 1, j)
    ensures !LiveAt(code, code[k].d, j)
  {
    if LiveAt(code, code[k].d, j) {
      var path: seq<nat> :| LiveAlong(code, code[k].d, path) && path[0] == j;
      FusedPath(code, k, path);
      assert false;
    }
  }

  lemma FusedLands(u: Compilation, k: nat, j: nat, d: Data, m: Machine, m1: Machine, w: Word)
    requires Good(u) && Related(u, k, d, m) && Scratched(m, m1)
    requires Fused(u.code, k) && Follows(u.code, k + 1, j)
    requires 0 < j <= |u.code| && !u.code[j - 1].StoreArg?
    ensures Related(u, j, d.(regs := d.regs[u.code[k].d := w]), m1)
  {
    hide *;
    FusedFacts(u.code, k);
    var dst := u.code[k].d;
    var regs' := d.regs[dst := w];
    RelatedIs(u, k, d, m);
    ScratchedSettled(u, d, m, m1);
    FusedDead(u.code, k, j);
    HeldIs(u, k, d.regs, m);
    DefinesMore(u, k, dst, d.regs, w);
    forall v: nat | v in regs' && LiveAt(u.code, v, j) ensures Holds(u, m1, v, regs'[v]) {
      LiveBefore(u.code, v, k + 1, j);
      LiveBefore(u.code, v, k, k + 1);
      HeldAt(u, k, d.regs, m, v);
      ScratchedHolds(u, m, m1, v, d.regs[v]);
    }
    HeldIs(u, j, regs', m1);
    LandedArgs(u, j, m1);
    SettledRegs(u, d, m1, regs');
    RelatedIs(u, j, d.(regs := regs'), m1);
  }

  lemma SettledRegs(u: Compilation, d: Data, m: Machine, regs: Regs)
    requires Settled(u, d, m)
    ensures Settled(u, d.(regs := regs), m)
  {
  }

  lemma FusedFacts(code: Code, k: nat)
    requires Fused(code, k)
    ensures k + 1 < |code| && Def(code[k]) == Some(code[k].d) && Def(code[k + 1]) == None && Follows(code, k, k + 1)
    ensures code[k].Bin? && IsCompare(code[k].op) && code[k + 1].JmpIf? && code[k + 1].cond == Reg(code[k].d)
  {
  }
}
