/** Whole runs of compiled code: one block at a time, from the prologue to the return. */
module CompiledRuns {
  import opened Word64
  import opened IR
  import opened Simulation
  import opened LoweredForm
  import opened Liveness
  import LinearScan
  import opened RegAlloc
  import opened X86
  import opened CodeGen
  import opened CodeLayout
  import opened Residence
  import opened Selection
  import opened BlockSteps
  import opened CallSteps
  import opened Compiled

  /** The two machines stand before the same instruction, which begins a block. */
  ghost predicate Standing(u: Compilation, s: State, x: XState) {
    && s.Run? && x.Going?
    && s.pc <= |u.code| && x.pc == Pos(u, s.pc) && Related(u, s.pc, s.data, x.m)
    && (s.pc > 0 ==> !Fused(u.code, s.pc - 1))
  }

  /** The caller finds its registers, its stack pointer and its return address as it left them. */
  ghost predicate Restored(u: Compilation, m: Machine, to: Word) {
    && 8 in u.entry.stack && to == u.entry.stack[8]
    && m.bp == u.entry.bp && m.sp == u.entry.sp + 8
    && forall r: Gpr :: Preserved(r) ==> r in m.gpr && r in u.entry.gpr && m.gpr[r] == u.entry.gpr[r]
  }

  /** Both have returned, with the same value after the same trace. */
  ghost predicate Ended(u: Compilation, s: State, x: XState) {
    s.Done? && x.Returned? && x.value == s.value && x.m.trace == s.trace && Restored(u, x.m, x.to)
  }

  lemma GoodMarks(u: Compilation)
    requires Good(u)
    ensures UniqueMarks(u.code) && TargetsExist(u.code)
  {
  }

  /** Running the first instructions of a block. */
  lemma BlockRuns(u: Compilation, k: nat, xs: seq<Asm>, m: Machine)
    requires k < |u.code| && xs <= Block(u.code, u.a, u.w.base, k)
    requires RunAll(u.w, xs, m).Some?
    ensures XSteps(u.w, Program(u), Going(Pos(u, k), m), |xs|) == Going(Pos(u, k) + |xs|, RunAll(u.w, xs, m).value)
  {
    hide Block, Blocks, RunAll, Assembled, XStep, Prologue;
    BlockAt(u, k);
    var asm, b, p := Program(u), Block(u.code, u.a, u.w.base, k), Pos(u, k);
    assert asm[p..p + |xs|] == asm[p..p + |b|][..|xs|];
    StraightSteps(u.w, asm, p, xs, m);
  }

  /** Running a block up to its last instruction, and that instruction. */
  lemma BlockEnds(u: Compilation, k: nat, xs: seq<Asm>, last: Asm, m: Machine)
    requires k < |u.code| && Block(u.code, u.a, u.w.base, k) == xs + [last]
    requires RunAll(u.w, xs, m).Some?
    ensures Pos(u, k) + |xs| < |Program(u)| && Program(u)[Pos(u, k) + |xs|] == last
        && Pos(u, k + 1) == Pos(u, k) + |xs| + 1
    ensures XSteps(u.w, Program(u), Going(Pos(u, k), m), |xs| + 1)
         == XStep(u.w, Program(u), Going(Pos(u, k) + |xs|, RunAll(u.w, xs, m).value))
  {
    hide Block, Blocks, RunAll, Assembled, XStep, Prologue;
    BlockRuns(u, k, xs, m);
    BlockAt(u, k);
    assert Program(u)[Pos(u, k) + |xs|] == Program(u)[Pos(u, k)..Pos(u, k + 1)][|xs|];
    XStepsAdd(u.w, Program(u), Going(Pos(u, k), m), |xs|, 1);
    XStepsOne(u.w, Program(u), Going(Pos(u, k) + |xs|, RunAll(u.w, xs, m).value));
  }

  lemma XStepsOne(w: World, asm: seq<Asm>, x: XState)
    ensures XSteps(w, asm, x, 1) == XStep(w, asm, x)
  {
    assert XSteps(w, asm, x, 1) == XSteps(w, asm, XStep(w, asm, x), 0);
  }

  lemma StepsOne(env: Env, code: Code, s: State)
    ensures Steps(env, code, s, 1) == Step(env, code, s)
    ensures Steps(env, code, s, 2) == Step(env, code, Step(env, code, s))
  {
    assert Steps(env, code, s, 1) == Steps(env, code, Step(env, code, s), 0);
    assert Steps(env, code, s, 2) == Steps(env, code, Step(env, code, s), 1);
    assert Steps(env, code, Step(env, code, s), 1) == Steps(env, code, Step(env, code, Step(env, code, s)), 0);
  }

  ghost predicate Reached(u: Compilation, s: State, x: XState, i: nat, j: nat) {
    var s', x' := Steps(u.w.env, u.code, s, i), XSteps(u.w, Program(u), x, j);
    s'.Trap? || Ended(u, s', x') || (Standing(u, s', x') && (j >= 1 || (s.Run? && s'.pc > s.pc)))
  }

  lemma PlainBlock(u: Compilation, k: nat)
    requires k < |u.code| && !Fused(u.code, k) && (k > 0 ==> !Fused(u.code, k - 1))
    ensures Block(u.code, u.a, u.w.base, k) == Translated(u.a, u.w.base, u.code[k])
  {
  }

  lemma AdvanceFalling(u: Compilation, k: nat, d: Data, m: Machine, d': Data) returns (j: nat)
    requires k < |u.code| && Good(u) && Standing(u, Run(k, d), Going(Pos(u, k), m)) && !Fused(u.code, k)
        && !u.code[k].JmpIf?
    requires Exec(u.w.env, u.code[k], d) == Next(d')
    ensures Step(u.w.env, u.code, Run(k, d)) == Run(k + 1, d')
    ensures Standing(u, Run(k + 1, d'), XSteps(u.w, Program(u), Going(Pos(u, k), m), j))
  {
    var xs := Translated(u.a, u.w.base, u.code[k]);
    StepFalls(u.w.env, u.code, k, d, d');
    hide Step, Pos, Program, XSteps, Good, Related, Exec, Translated, Block, Blocks, Assembled, Fused, RunAll, XStep;
    PlainBlock(u, k);
    FallThrough(u, k, d, m, d');
    BlockRuns(u, k, xs, m);
    BlockAt(u, k);
    j := |xs|;
  }

  lemma StepFalls(env: Env, code: Code, k: nat, d: Data, d': Data)
    requires k < |code| && Exec(env, code[k], d) == Next(d')
    ensures Step(env, code, Run(k, d)) == Run(k + 1, d')
  {
    hide Exec;
  }

  // ----- jumps -----

  lemma Target(u: Compilation, l: Label)
    requires Good(u) && Find(u.code, l) < |u.code|
    ensures var j := Find(u.code, l) + 1;
            && 0 < j <= |u.code| && !u.code[j - 1].StoreArg? && !Fused(u.code, j - 1)
            && Where(Program(u), Local(l)) + 1 == Pos(u, j)
  {
    GoodMarks(u);
    LabelPosition(u, l);
  }

  lemma BranchBlock(u: Compilation, k: nat)
    requires k < |u.code|
    ensures u.code[k].JmpIf? ==> var i := u.code[k];
              && Translated(u.a, u.w.base, i) == TestFor(u.a, u.w.base, i.cond)
                  + [JumpCc(if i.nonzero then NE else E, Local(i.to))]
              && RegsOf(i.cond) <= Uses(i) && Def(i) == None && IsJump(i) && Follows(u.code, k, k + 1)
              && Follows(u.code, k, Find(u.code, i.to) + 1)
    ensures u.code[k].Jmp? ==> var i := u.code[k];
              && Translated(u.a, u.w.base, i) == [JumpTo(Local(i.to))]
              && Def(i) == None && IsJump(i) && Follows(u.code, k, Find(u.code, i.to) + 1)
  {
  }

  lemma TargetExists(u: Compilation, k: nat)
    requires Good(u) && k < |u.code| && IsJump(u.code[k])
    ensures Find(u.code, u.code[k].to) < |u.code|
  {
  }

  lemma JumpSteps(u: Compilation, p: nat, m: Machine, t: Tag, cc: Cc)
    requires p < |Program(u)|
    ensures Program(u)[p] == JumpTo(t) ==> XStep(u.w, Program(u), Going(p, m)) == Going(Where(Program(u), t) + 1, m)
    ensures Program(u)[p] == JumpCc(cc, t) && m.flags.Some? ==>
              XStep(u.w, Program(u), Going(p, m)) == Going(if Compares(cc, m.flags.value) then Where(Program(u), t) + 1
                          else p + 1, m)
  {
    hide Assembled, Where;
  }

  lemma AdvanceJump(u: Compilation, k: nat, d: Data, m: Machine)
    requires k < |u.code| && Good(u) && Standing(u, Run(k, d), Going(Pos(u, k), m)) && u.code[k].Jmp?
    ensures Reached(u, Run(k, d), Going(Pos(u, k), m), 1, 1)
  {
    hide *;
    var l := u.code[k].to;
    StandingIs(u, Run(k, d), Going(Pos(u, k), m));
    JumpBlock(u, k);
    BranchBlock(u, k);
    TargetExists(u, k);
    StepsOne(u.w.env, u.code, Run(k, d));
    JumpStep(u.w.env, u.code, k, d);
    Target(u, l);
    RunOne(u.w, JumpTo(Local(l)), m);
    BlockEnds(u, k, [], JumpTo(Local(l)), m);
    JumpSteps(u, Pos(u, k), m, Local(l), E);
    ScratchedSelf(m);
    Lands(u, k, Find(u.code, l) + 1, d, m, m);
    StandingIs(u, Run(Find(u.code, l) + 1, d), Going(Pos(u, Find(u.code, l) + 1), m));
    ReachedIs(u, Run(k, d), Going(Pos(u, k), m), 1, 1);
  }

  lemma JumpStep(env: Env, code: Code, k: nat, d: Data)
    requires k < |code| && code[k].Jmp?
    ensures Step(env, code, Run(k, d)) == Run(Find(code, code[k].to) + 1, d)
  {
    hide Find;
  }

  lemma JumpBlock(u: Compilation, k: nat)
    requires k < |u.code| && IsJump(u.code[k]) && (k > 0 ==> !Fused(u.code, k - 1))
    ensures Block(u.code, u.a, u.w.base, k) == Translated(u.a, u.w.base, u.code[k]) && !Fused(u.code, k)
  {
  }

  lemma ScratchedSelf(m: Machine)
    ensures Scratched(m, m)
  {
  }

  lemma BranchSteps(env: Env, code: Code, k: nat, d: Data)
    requires k < |code| && code[k].JmpIf?
    ensures var w := Val(d.regs, code[k].cond);
            && (w.None? ==> Step(env, code, Run(k, d)).Trap?)
            && (w.Some? ==> Step(env, code, Run(k, d))
                            == Run(if (w.value != 0) == code[k].nonzero then Find(code, code[k].to) + 1 else k + 1, d))
  {
  }

  lemma AdvanceBranch(u: Compilation, k: nat, d: Data, m: Machine) returns (j: nat)
    requires k < |u.code| && Good(u) && Standing(u, Run(k, d), Going(Pos(u, k), m)) && u.code[k].JmpIf?
    ensures Reached(u, Run(k, d), Going(Pos(u, k), m), 1, j)
  {
    hide *;
    var i := u.code[k];
    StandingIs(u, Run(k, d), Going(Pos(u, k), m));
    JumpBlock(u, k);
    BranchBlock(u, k);
    TargetExists(u, k);
    StepsOne(u.w.env, u.code, Run(k, d));
    BranchSteps(u.w.env, u.code, k, d);
    j := 0;
    if Val(d.regs, i.cond).Some? {
      var w := Val(d.regs, i.cond).value;
      Target(u, i.to);
      OperandReady(u, k, d, m, i.cond);
      TestRuns(u, m, i.cond, w);
      var xs, cc := TestFor(u.a, u.w.base, i.cond), if i.nonzero then NE else E;
      var m1 := RunAll(u.w, xs, m).value;
      BlockEnds(u, k, xs, JumpCc(cc, Local(i.to)), m);
      JumpSteps(u, Pos(u, k) + |xs|, m1, Local(i.to), cc);
      TestMeans(cc, w);
      var next := if (w != 0) == i.nonzero then Find(u.code, i.to) + 1 else k + 1;
      Lands(u, k, next, d, m, m1);
      j := |xs| + 1;
      StandingIs(u, Run(next, d), Going(Pos(u, next), m1));
    }
    ReachedIs(u, Run(k, d), Going(Pos(u, k), m), 1, j);
  }

  lemma TestMeans(cc: Cc, w: Word)
    ensures Compares(NE, Flags(w, 0)) == (w != 0) && Compares(E, Flags(w, 0)) == (w == 0)
  {
  }

  lemma StandingIs(u: Compilation, s: State, x: XState)
    ensures Standing(u, s, x) <==>
              && s.Run? && x.Going?
              && s.pc <= |u.code| && x.pc == Pos(u, s.pc) && Related(u, s.pc, s.data, x.m)
              && (s.pc > 0 ==> !Fused(u.code, s.pc - 1))
  {
  }

  lemma ReachedIs(u: Compilation, s: State, x: XState, i: nat, j: nat)
    ensures Reached(u, s, x, i, j) <==>
              var s', x' := Steps(u.w.env, u.code, s, i), XSteps(u.w, Program(u), x, j);
              s'.Trap? || Ended(u, s', x') || (Standing(u, s', x') && (j >= 1 || (s.Run? && s'.pc > s.pc)))
  {
  }

  // ----- a fused comparison and branch -----

  lemma CompareSteps(env: Env, code: Code, k: nat, d: Data)
    requires Fused(code, k)
    ensures var i, a, b := code[k], Val(d.regs, code[k].a), Val(d.regs, code[k].b);
            && (a.None? || b.None? ==> Step(env, code, Run(k, d)).Trap?)
            && (a.Some? && b.Some? ==>
                  Step(env, code, Run(k, d)) == Run(k + 1, d.(regs := d.regs[i.d := Truth(Compares(Condition(i.op),
                          Flags(a.value, b.value)))])))
  {
    var i := code[k];
    if Val(d.regs, i.a).Some? && Val(d.regs, i.b).Some? {
      ComparesAs(i.op, Val(d.regs, i.a).value, Val(d.regs, i.b).value);
    }
    hide Alu, Compares;
  }

  lemma FusedBlock(u: Compilation, k: nat)
    requires Fused(u.code, k)
    ensures var cmp, branch := u.code[k], u.code[k + 1];
            Block(u.code, u.a, u.w.base, k)
            == LoadBoth(u.a, u.w.base, cmp.a, cmp.b) + [Compare]
              + [JumpCc(if branch.nonzero then Condition(cmp.op) else Inverse(cmp.op), Local(branch.to))]
    ensures RegsOf(u.code[k].a) <= Uses(u.code[k]) && RegsOf(u.code[k].b) <= Uses(u.code[k])
    ensures k + 2 <= |u.code| && !u.code[k + 1].StoreArg? && !Fused(u.code, k + 1)
    ensures Block(u.code, u.a, u.w.base, k + 1) == []
  {
    var cmp, branch := u.code[k], u.code[k + 1];
    var cc := if branch.nonzero then Condition(cmp.op) else Inverse(cmp.op);
    assert FusedBranch(u.a, u.w.base, cmp, branch)
        == LoadBoth(u.a, u.w.base, cmp.a, cmp.b) + [Compare, JumpCc(cc, Local(branch.to))];
    hide LoadBoth;
    assert LoadBoth(u.a, u.w.base, cmp.a, cmp.b) + [Compare, JumpCc(cc, Local(branch.to))]
        == LoadBoth(u.a, u.w.base, cmp.a, cmp.b) + [Compare] + [JumpCc(cc, Local(branch.to))];
  }

  lemma CompareBothRuns(u: Compilation, k: nat, d: Data, m: Machine, a: Word, b: Word) returns (m1: Machine)
    requires Good(u) && Related(u, k, d, m) && Fused(u.code, k)
    requires Val(d.regs, u.code[k].a) == Some(a) && Val(d.regs, u.code[k].b) == Some(b)
    ensures RunAll(u.w, LoadBoth(u.a, u.w.base, u.code[k].a, u.code[k].b) + [Compare], m) == Some(m1)
    ensures Scratched(m, m1) && m1.flags == Some(Flags(a, b))
  {
    var x, y := u.code[k].a, u.code[k].b;
    FusedBlock(u, k);
    ScratchNames();
    assert LoadBoth(u.a, u.w.base, x, y) == LoadTo(u.a, u.w.base, x, RAX) + LoadTo(u.a, u.w.base, y, RCX);
    var xs := LoadBoth(u.a, u.w.base, x, y);
    hide *;
    FusedFacts(u.code, k);
    OperandReady(u, k, d, m, x);
    OperandReady(u, k, d, m, y);
    LoadPair(u, m, x, y, RAX, RCX, a, b);
    BothIs(u, m, xs, a, b);
    CompareSets(u, m, xs, a, b);
    ComputesIs(u, m, xs + [Compare], RAX, a);
    m1 := RunAll(u.w, xs + [Compare], m).value;
  }

  lemma AdvanceFused(u: Compilation, k: nat, d: Data, m: Machine) returns (j: nat)
    requires k < |u.code| && Good(u) && Standing(u, Run(k, d), Going(Pos(u, k), m)) && Fused(u.code, k)
    ensures Reached(u, Run(k, d), Going(Pos(u, k), m), 2, j)
  {
    hide *;
    StandingIs(u, Run(k, d), Going(Pos(u, k), m));
    FusedFacts(u.code, k);
    FusedBlock(u, k);
    var cmp, branch := u.code[k], u.code[k + 1];
    BranchBlock(u, k + 1);
    TargetExists(u, k + 1);
    StepsOne(u.w.env, u.code, Run(k, d));
    CompareSteps(u.w.env, u.code, k, d);
    var a, b := Val(d.regs, cmp.a), Val(d.regs, cmp.b);
    j := 0;
    if a.Some? && b.Some? {
      var holds := Compares(Condition(cmp.op), Flags(a.value, b.value));
      var d1 := d.(regs := d.regs[cmp.d := Truth(holds)]);
      BranchSteps(u.w.env, u.code, k + 1, d1);
      ReadBack(d, cmp.d, holds);
      var next := if holds == branch.nonzero then Find(u.code, branch.to) + 1 else k + 2;
      var m1 := CompareBothRuns(u, k, d, m, a.value, b.value);
      var xs := LoadBoth(u.a, u.w.base, cmp.a, cmp.b) + [Compare];
      var cc := if branch.nonzero then Condition(cmp.op) else Inverse(cmp.op);
      BlockEnds(u, k, xs, JumpCc(cc, Local(branch.to)), m);
      BlockAt(u, k + 1);
      JumpSteps(u, Pos(u, k) + |xs|, m1, Local(branch.to), cc);
      ComparesAs(cmp.op, a.value, b.value);
      Target(u, branch.to);
      FusedLands(u, k, next, d, m, m1, Truth(holds));
      j := |xs| + 1;
      StandingIs(u, Run(next, d1), Going(Pos(u, next), m1));
    } else {
      TrapStays(u.w.env, u.code, Step(u.w.env, u.code, Run(k, d)));
    }
    ReachedIs(u, Run(k, d), Going(Pos(u, k), m), 2, j);
  }

  lemma ReadBack(d: Data, dst: nat, holds: bool)
    ensures Val(d.regs[dst := Truth(holds)], Reg(dst)) == Some(Truth(holds)) && (Truth(holds) != 0 <==> holds)
  {
  }

  lemma TrapStays(env: Env, code: Code, s: State)
    requires s.Trap?
    ensures Step(env, code, s).Trap?
  {
  }

  // ----- the epilogue -----

  ghost predicate CalleeSavedBack(u: Compilation, gpr: map<Gpr, Word>, from: nat) {
    forall q :: from <= q < 5 ==> PHYS[q] in gpr && PHYS[q] in u.entry.gpr && gpr[PHYS[q]] == u.entry.gpr[PHYS[q]]
  }

  lemma RestoreOne(u: Compilation, m: Machine, r: nat)
    requires Good(u) && r < 5 && u.a.used[r] && StackIntact(u, m.stack) && m.bp == 0 && m.sp + Size(u) == 0
    ensures var m1 := RunAll(u.w, [LoadFrame(u.a.save[r], PHYS[r])], m);
            m1.Some? && PHYS[r] in u.entry.gpr && m1.value == SetGpr(m, PHYS[r], u.entry.gpr[PHYS[r]])
  {
    FrameDisjoint(u.w.base, u.start, u.a);
    assert CellInside(u.a.save[r], Size(u), u.w.base);
    RunOne(u.w, LoadFrame(u.a.save[r], PHYS[r]), m);
  }

  lemma UsedShape(u: Compilation)
    requires Good(u)
    ensures |u.a.used| == |u.a.save| == LinearScan.REG_COUNT
  {
  }

  lemma RestoresNext(u: Compilation, r: nat)
    requires Good(u) && r <= 5
    ensures |u.a.used| == |u.a.save| == LinearScan.REG_COUNT
    ensures r == 0 ==> Restores(u.a, r) == []
    ensures r > 0 && u.a.used[r - 1] ==> Restores(u.a, r)
                                         == [LoadFrame(u.a.save[r - 1], PHYS[r - 1])] + Restores(u.a, r - 1)
    ensures r > 0 && !u.a.used[r - 1] ==> Restores(u.a, r) == Restores(u.a, r - 1)
  {
    UsedShape(u);
    hide Good;
  }

  lemma RunNothing(w: World, m: Machine)
    ensures RunAll(w, [], m) == Some(m)
  {
  }

  lemma BackOneMore(u: Compilation, m: Machine, r: nat)
    requires Good(u) && r < 5 && RegsIntact(u, m.gpr) && CalleeSavedBack(u, m.gpr, r + 1)
    ensures !u.a.used[r] ==> CalleeSavedBack(u, m.gpr, r)
    ensures u.a.used[r] && PHYS[r] in u.entry.gpr ==>
              var gpr := m.gpr[PHYS[r] := u.entry.gpr[PHYS[r]]];
              RegsIntact(u, gpr) && CalleeSavedBack(u, gpr, r)
                && (RAX in m.gpr ==> RAX in gpr && gpr[RAX] == m.gpr[RAX])
  {
    UsedShape(u);
    PhysNotScratch();
    hide Good;
  }

  lemma {:induction false} RestoresRun(u: Compilation, m: Machine, r: nat)
    requires Good(u) && r <= 5 && StackIntact(u, m.stack) && m.bp == 0 && m.sp + Size(u) == 0
    requires RegsIntact(u, m.gpr) && CalleeSavedBack(u, m.gpr, r)
    ensures var m1 := RunAll(u.w, Restores(u.a, r), m);
            && m1.Some? && m1.value == m.(gpr := m1.value.gpr) && CalleeSavedBack(u, m1.value.gpr, 0)
            && (RAX in m.gpr ==> RAX in m1.value.gpr && m1.value.gpr[RAX] == m.gpr[RAX])
    decreases r
  {
    hide *;
    RestoresNext(u, r);
    if r == 0 {
      RunNothing(u.w, m);
    } else {
      UsedShape(u);
      RegCount();
      BackOneMore(u, m, r - 1);
      if u.a.used[r - 1] {
        var x := [LoadFrame(u.a.save[r - 1], PHYS[r - 1])];
        RestoreOne(u, m, r - 1);
        var m1 := RunAll(u.w, x, m).value;
        assert m1 == SetGpr(m, PHYS[r - 1], u.entry.gpr[PHYS[r - 1]]);
        SetGprIs(m, PHYS[r - 1], u.entry.gpr[PHYS[r - 1]]);
        RestoresRun(u, m1, r - 1);
        RunAppend(u.w, x, Restores(u.a, r - 1), m);
      } else {
        RestoresRun(u, m, r - 1);
      }
    }
  }

  lemma RegCount()
    ensures LinearScan.REG_COUNT >= 5 && |PHYS| >= 5
  {
  }

  lemma SetGprIs(m: Machine, r: Gpr, w: Word)
    ensures SetGpr(m, r, w) == m.(gpr := m.gpr[r := w])
  {
  }

  lemma LeaveRuns(u: Compilation, m: Machine)
    requires StackIntact(u, m.stack) && m.bp == 0
    ensures RunAll(u.w, [MoveBpSp, PopBp], m) == Some(m.(sp := 8, bp := u.entry.bp))
  {
    assert Do(u.w, MoveBpSp, m) == Some(m.(sp := 0));
    assert 0 in m.stack && m.stack[0] == u.entry.bp;
    assert Do(u.w, PopBp, m.(sp := 0)) == Some(m.(sp := 8, bp := u.entry.bp));
    hide *;
    RunOne(u.w, MoveBpSp, m);
    RunThen(u.w, [MoveBpSp], PopBp, m);
    assert [MoveBpSp] + [PopBp] == [MoveBpSp, PopBp];
  }

  lemma CalleeSavedRegs(u: Compilation, gpr: map<Gpr, Word>)
    requires CalleeSavedBack(u, gpr, 0)
    ensures forall r: Gpr :: Preserved(r) ==> r in gpr && r in u.entry.gpr && gpr[r] == u.entry.gpr[r]
  {
    assert PHYS[0] == RBX && PHYS[1] == R12 && PHYS[2] == R13 && PHYS[3] == R14 && PHYS[4] == R15;
  }

  lemma EndingAt(u: Compilation)
    ensures var p := Pos(u, |u.code|) + 1;
            var xs := Restores(u.a, 5) + [MoveBpSp, PopBp];
            && p + |xs| < |Program(u)| && Program(u)[p..p + |xs|] == xs && Program(u)[p + |xs|] == Return
  {
    hide *;
    ProgramEnd(u);
    SliceWithin(Program(u), Pos(u, |u.code|), Lab(Epilogue), Restores(u.a, 5) + [MoveBpSp, PopBp], Return);
  }

  lemma ProgramEnd(u: Compilation)
    ensures Program(u) == (Prologue(u.a, u.w.base, u.area) + Blocks(u.code, u.a, u.w.base, |u.code|))
        + ([Lab(Epilogue)] + (Restores(u.a, 5) + [MoveBpSp, PopBp]) + [Return])
    ensures Pos(u, |u.code|) <= |Program(u)| && Program(u)[Pos(u, |u.code|)..]
        == [Lab(Epilogue)] + (Restores(u.a, 5) + [MoveBpSp, PopBp]) + [Return]
  {
    hide Blocks, Restores, Prologue;
    var front, end := Prologue(u.a, u.w.base, u.area) + Blocks(u.code, u.a, u.w.base, |u.code|),
        [Lab(Epilogue)] + (Restores(u.a, 5) + [MoveBpSp, PopBp]) + [Return];
    assert Ending(u.a) == end;
    assert (front + end)[|front|..] == end;
  }

  lemma SliceWithin(s: seq<Asm>, p: nat, a: Asm, xs: seq<Asm>, z: Asm)
    requires p <= |s| && s[p..] == [a] + xs + [z]
    ensures p + 1 + |xs| < |s| && s[p + 1..p + 1 + |xs|] == xs && s[p + 1 + |xs|] == z
  {
    var ending := s[p..];
    assert ending[1..1 + |xs|] == xs;
    assert s[p + 1..p + 1 + |xs|] == ending[1..1 + |xs|];
    assert s[p + 1 + |xs|] == ending[1 + |xs|];
  }

  /** From the epilogue label the machine returns what is in rax, with the caller's state restored. */
  lemma EndingRuns(u: Compilation, d: Data, m: Machine, w: Word) returns (j: nat)
    requires Good(u) && Settled(u, d, m) && RAX in m.gpr && m.gpr[RAX] == w
    ensures Ended(u, Done(w, d.trace), XSteps(u.w, Program(u), Going(Pos(u, |u.code|) + 1, m), j))
  {
    hide *;
    var p, xs := Pos(u, |u.code|) + 1, Restores(u.a, 5) + [MoveBpSp, PopBp];
    SettledParts(u, d, m);
    NothingToRestore(u, m.gpr);
    RestoresRun(u, m, 5);
    var m1 := RunAll(u.w, Restores(u.a, 5), m).value;
    LeaveRuns(u, m1);
    var m2 := m1.(sp := 8, bp := u.entry.bp);
    RunAppend(u.w, Restores(u.a, 5), [MoveBpSp, PopBp], m);
    EndingAt(u);
    EndingReturns(u, m2, p + |xs|);
    StraightSteps(u.w, Program(u), p, xs, m);
    XStepsAdd(u.w, Program(u), Going(p, m), |xs|, 1);
    XStepsOne(u.w, Program(u), Going(p + |xs|, m2));
    EntrySp(u);
    IsEnded(u, w, d.trace, m2);
    j := |xs| + 1;
  }

  lemma SettledParts(u: Compilation, d: Data, m: Machine)
    requires Settled(u, d, m)
    ensures m.bp == 0 && m.sp + Size(u) == 0 && m.trace == d.trace && StackIntact(u, m.stack) && RegsIntact(u, m.gpr)
  {
  }

  lemma NothingToRestore(u: Compilation, gpr: map<Gpr, Word>)
    ensures CalleeSavedBack(u, gpr, 5)
  {
  }

  lemma IsEnded(u: Compilation, w: Word, trace: Trace, m: Machine)
    requires CalleeSavedBack(u, m.gpr, 0) && m.bp == u.entry.bp && u.entry.sp == 8 && m.trace == trace
        && 8 in u.entry.stack
    ensures Ended(u, Done(w, trace), Returned(w, m.(sp := 16), u.entry.stack[8]))
  {
    CalleeSavedRegs(u, m.gpr);
  }

  lemma EntrySp(u: Compilation)
    requires Good(u)
    ensures u.entry.sp == 8
  {
  }

  lemma EndingReturns(u: Compilation, m: Machine, p: nat)
    requires StackIntact(u, m.stack) && m.sp == 8 && RAX in m.gpr && p < |Program(u)| && Program(u)[p] == Return
    ensures 8 in u.entry.stack && XStep(u.w, Program(u), Going(p, m))
        == Returned(m.gpr[RAX], m.(sp := 16), u.entry.stack[8])
  {
    hide Assembled;
  }

  lemma RetBlock(u: Compilation, k: nat)
    requires k < |u.code| && u.code[k].Ret?
    ensures !Fused(u.code, k) && RegsOf(u.code[k].s) <= Uses(u.code[k])
    ensures (k > 0 ==> !Fused(u.code, k - 1)) ==>
              Block(u.code, u.a, u.w.base, k) == LoadTo(u.a, u.w.base, u.code[k].s, RAX) + [JumpTo(Epilogue)]
  {
  }

  lemma RetSteps(env: Env, code: Code, k: nat, d: Data)
    requires k < |code| && code[k].Ret?
    ensures var w := Val(d.regs, code[k].s);
            && (w.None? ==> Step(env, code, Run(k, d)).Trap?)
            && (w.Some? ==> Step(env, code, Run(k, d)) == Done(w.value, d.trace))
  {
  }

  lemma AdvanceReturn(u: Compilation, k: nat, d: Data, m: Machine) returns (j: nat)
    requires k < |u.code| && Good(u) && Standing(u, Run(k, d), Going(Pos(u, k), m)) && u.code[k].Ret?
    ensures Reached(u, Run(k, d), Going(Pos(u, k), m), 1, j)
  {
    hide *;
    StandingIs(u, Run(k, d), Going(Pos(u, k), m));
    RetBlock(u, k);
    StepsOne(u.w.env, u.code, Run(k, d));
    RetSteps(u.w.env, u.code, k, d);
    j := 0;
    var s := u.code[k].s;
    if Val(d.regs, s).Some? {
      var w := Val(d.regs, s).value;
      OperandReady(u, k, d, m, s);
      ScratchNames();
      LoadComputes(u, m, s, RAX, w);
      var xs := LoadTo(u.a, u.w.base, s, RAX);
      ComputesIs(u, m, xs, RAX, w);
      var m1 := RunAll(u.w, xs, m).value;
      BlockEnds(u, k, xs, JumpTo(Epilogue), m);
      JumpSteps(u, Pos(u, k) + |xs|, m1, Epilogue, E);
      EpiloguePosition(u);
      RelatedIs(u, k, d, m);
      ScratchedSettled(u, d, m, m1);
      var i := EndingRuns(u, d, m1, w);
      XStepsAdd(u.w, Program(u), Going(Pos(u, k), m), |xs| + 1, i);
      j := |xs| + 1 + i;
    }
    ReachedIs(u, Run(k, d), Going(Pos(u, k), m), 1, j);
  }

  // ----- the prologue -----

  /** What the caller left is in place, and the slots are as at entry. */
  ghost predicate EntryIntact(u: Compilation, stack: Cells) {
    && 0 in stack && stack[0] == u.entry.bp
    && 8 in u.entry.stack && AboveIntact(u, stack)
    && Locals(u.w, stack) == Locals(u.w, u.entry.stack)
  }

  /** After the stores to the save area and the first `r` saves. */
  ghost predicate SavedTo(u: Compilation, stack: Cells, r: nat) {
    && r <= 5 && |u.a.used| == |u.a.save| == LinearScan.REG_COUNT
    && EntryIntact(u, stack) && AreaHolds(u, stack, 6)
    && (forall q :: 0 <= q < r && u.a.used[q] ==>
          u.a.save[q] in stack && PHYS[q] in u.entry.gpr && stack[u.a.save[q]] == u.entry.gpr[PHYS[q]])
  }

  /** Changing a cell of the frame that is no slot. */
  lemma EntryKept(u: Compilation, stack: Cells, stack': Cells, off: int)
    requires Good(u) && EntryIntact(u, stack) && off + 8 <= 0
    requires forall k :: k in u.w.cells ==> Apart(k, off)
    requires forall x: int :: Apart(x, off) ==> (x in stack' <==> x in stack) && (x in stack ==> stack'[x] == stack[x])
    ensures EntryIntact(u, stack')
  {
    var a, b := Locals(u.w, stack), Locals(u.w, stack');
    assert forall k :: k in u.w.cells ==> (k in a <==> k in b) && (k in a ==> a[k] == b[k]);
    assert a == b;
  }

  lemma PutElsewhere(stack: Cells, off: int, w: Word)
    ensures var stack' := Put(stack, off, w);
            forall x: int :: Apart(x, off) ==> (x in stack' <==> x in stack) && (x in stack ==> stack'[x] == stack[x])
  {
  }

  lemma SaveNext(u: Compilation, stack: Cells, r: nat)
    requires Good(u) && r < 5 && SavedTo(u, stack, r) && u.a.used[r]
    ensures PHYS[r] in u.entry.gpr && 0 <= u.a.save[r] + Size(u)
        && SavedTo(u, Put(stack, u.a.save[r], u.entry.gpr[PHYS[r]]), r + 1)
  {
    FrameDisjoint(u.w.base, u.start, u.a);
    var off := u.a.save[r];
    assert CellInside(off, Size(u), u.w.base);
    var stack' := Put(stack, off, u.entry.gpr[PHYS[r]]);
    forall q | 0 <= q < r + 1 && u.a.used[q]
      ensures u.a.save[q] in stack' && PHYS[q] in u.entry.gpr && stack'[u.a.save[q]] == u.entry.gpr[PHYS[q]]
    {
      if q < r { assert CellsApart(u.a.save[q], off); }
    }
    PutElsewhere(stack, off, u.entry.gpr[PHYS[r]]);
    EntryKept(u, stack, stack', off);
    AreaKept(u, stack, stack', off, 6);
  }

  lemma AreaKept(u: Compilation, stack: Cells, stack': Cells, off: int, n: nat)
    requires n <= 6 && AreaHolds(u, stack, n)
    requires u.area.Some? ==> off + 8 <= u.area.value || u.area.value + 8 * n <= off
    requires forall x: int :: Apart(x, off) ==> (x in stack' <==> x in stack) && (x in stack ==> stack'[x] == stack[x])
    ensures AreaHolds(u, stack', n)
  {
  }

  lemma {:induction false} SavesRun(u: Compilation, m: Machine, r: nat)
    requires Good(u) && r <= 5 && SavedTo(u, m.stack, 0) && m.bp == 0 && m.sp + Size(u) == 0 && m.gpr == u.entry.gpr
    ensures var m1 := RunAll(u.w, Saves(u.a, r), m);
            m1.Some? && m1.value == m.(stack := m1.value.stack) && SavedTo(u, m1.value.stack, r)
  {
    UsedShape(u);
    hide Good, SavedTo, Do, Put;
    if r > 0 {
      SavesRun(u, m, r - 1);
      var xs := Saves(u.a, r - 1);
      var m1 := RunAll(u.w, xs, m).value;
      if u.a.used[r - 1] {
        SaveNext(u, m1.stack, r - 1);
        RunThen(u.w, xs, StoreFrame(PHYS[r - 1], u.a.save[r - 1]), m);
        StoreFrameDoes(u, m1, PHYS[r - 1], u.a.save[r - 1]);
      } else {
        SaveNone(u, m1.stack, r - 1);
        assert Saves(u.a, r) == xs + [] == xs;
      }
    }
  }

  // ----- the save area -----

  ghost predicate AreaTo(u: Compilation, stack: Cells, n: nat) {
    n <= 6 && EntryIntact(u, stack) && AreaHolds(u, stack, n)
  }

  lemma GeneralNext(u: Compilation, stack: Cells, n: nat)
    requires Good(u) && u.area.Some? && n < 6 && AreaTo(u, stack, n)
    ensures var off := u.area.value + 8 * n;
            && ARG_REGS[n] in u.entry.gpr && 0 <= off + Size(u)
            && AreaTo(u, Put(stack, off, u.entry.gpr[ARG_REGS[n]]), n + 1)
  {
    var off, w := u.area.value + 8 * n, u.entry.gpr[ARG_REGS[n]];
    FrameDisjoint(u.w.base, u.start, u.a);
    var stack' := Put(stack, off, w);
    PutElsewhere(stack, off, w);
    EntryKept(u, stack, stack', off);
    AreaKept(u, stack, stack', off, n);
    AreaMore(u, stack', n);
  }

  lemma AreaMore(u: Compilation, stack: Cells, n: nat)
    requires n < 6 && AreaHolds(u, stack, n) && u.area.Some?
    requires var x := u.area.value + 8 * n;
             ARG_REGS[n] in u.entry.gpr && x in stack && stack[x] == u.entry.gpr[ARG_REGS[n]]
    ensures AreaHolds(u, stack, n + 1)
  {
  }

  lemma {:induction false} GeneralRun(u: Compilation, m: Machine, n: nat)
    requires Good(u) && u.area.Some? && n <= 6 && AreaTo(u, m.stack, 0)
    requires m.bp == 0 && m.sp + Size(u) == 0 && m.gpr == u.entry.gpr
    ensures var m1 := RunAll(u.w, GeneralSaves(u.area.value, n), m);
            m1.Some? && m1.value == m.(stack := m1.value.stack) && AreaTo(u, m1.value.stack, n)
  {
    hide Good, AreaTo, Do, Put, Size;
    if n > 0 {
      GeneralRun(u, m, n - 1);
      var xs := GeneralSaves(u.area.value, n - 1);
      var m1 := RunAll(u.w, xs, m).value;
      GeneralNext(u, m1.stack, n - 1);
      RunThen(u.w, xs, StoreFrame(ARG_REGS[n - 1], u.area.value + 8 * (n - 1)), m);
      StoreFrameDoes(u, m1, ARG_REGS[n - 1], u.area.value + 8 * (n - 1));
    }
  }

  lemma VectorNext(u: Compilation, m: Machine, n: nat)
    requires Good(u) && u.area.Some? && n < 8 && AreaTo(u, m.stack, 6) && m.bp == 0 && m.sp + Size(u) == 0
    ensures var off := u.area.value + 48 + 16 * n;
            && Do(u.w, SaveVector(n, off), m) == Some(m.(stack := VectorPut(m, n, off)))
            && AreaTo(u, VectorPut(m, n, off), 6)
  {
    var off := u.area.value + 48 + 16 * n;
    FrameDisjoint(u.w.base, u.start, u.a);
    var first := Forget(m.stack, off + 8);
    EntryKept(u, m.stack, first, off + 8);
    AreaKept(u, m.stack, first, off + 8, 6);
    var last := VectorPut(m, n, off);
    EntryKept(u, first, last, off);
    AreaKept(u, first, last, off, 6);
  }

  lemma {:induction false} VectorRun(u: Compilation, m: Machine, n: nat)
    requires Good(u) && u.area.Some? && n <= 8 && AreaTo(u, m.stack, 6) && m.bp == 0 && m.sp + Size(u) == 0
    ensures var m1 := RunAll(u.w, VectorSaves(u.area.value + 48, n), m);
            m1.Some? && m1.value == m.(stack := m1.value.stack) && AreaTo(u, m1.value.stack, 6)
  {
    hide Good, AreaTo, Do, Forget, VectorPut, Size;
    if n > 0 {
      VectorRun(u, m, n - 1);
      var xs := VectorSaves(u.area.value + 48, n - 1);
      var m1 := RunAll(u.w, xs, m).value;
      VectorNext(u, m1, n - 1);
      RunThen(u.w, xs, SaveVector(n - 1, u.area.value + 48 + 16 * (n - 1)), m);
    }
  }

  /** Whatever there is to store to the save area is stored. */
  lemma AreaRuns(u: Compilation, m: Machine)
    requires Good(u) && EntryIntact(u, m.stack) && m.bp == 0 && m.sp + Size(u) == 0 && m.gpr == u.entry.gpr
    ensures var m1 := RunAll(u.w, SaveArea(u.area), m);
            m1.Some? && m1.value == m.(stack := m1.value.stack) && SavedTo(u, m1.value.stack, 0)
  {
    hide *;
    UsedShape(u);
    AreaBegins(u, m.stack);
    AreaIs(u.area);
    if u.area.Some? {
      GeneralRun(u, m, 6);
      var xs, ys := GeneralSaves(u.area.value, 6), VectorSaves(u.area.value + 48, 8);
      var m1 := RunAll(u.w, xs, m).value;
      VectorRun(u, m1, 8);
      RunAppend(u.w, xs, ys, m);
      AreaEnds(u, RunAll(u.w, ys, m1).value.stack);
    } else {
      RunNothing(u.w, m);
      NoArea(u, m.stack);
    }
  }

  lemma AreaBegins(u: Compilation, stack: Cells)
    requires EntryIntact(u, stack)
    ensures AreaTo(u, stack, 0)
  {
    hide EntryIntact;
  }

  lemma AreaEnds(u: Compilation, stack: Cells)
    requires AreaTo(u, stack, 6) && |u.a.used| == |u.a.save| == LinearScan.REG_COUNT
    ensures SavedTo(u, stack, 0)
  {
    hide EntryIntact, AreaHolds;
  }

  lemma AreaIs(area: Option<int>)
    ensures area.None? ==> SaveArea(area) == []
    ensures area.Some? ==> SaveArea(area) == GeneralSaves(area.value, 6) + VectorSaves(area.value + 48, 8)
  {
  }

  lemma NoArea(u: Compilation, stack: Cells)
    requires u.area.None? && EntryIntact(u, stack) && |u.a.used| == |u.a.save| == LinearScan.REG_COUNT
    ensures SavedTo(u, stack, 0)
  {
    hide EntryIntact;
  }

  lemma SaveNone(u: Compilation, stack: Cells, r: nat)
    requires r < 5 && SavedTo(u, stack, r) && !u.a.used[r]
    ensures SavedTo(u, stack, r + 1)
  {
  }

  lemma EnterRuns(u: Compilation)
    requires Good(u)
    ensures var m := RunAll(u.w, [PushBp, MoveSpBp, SubSp(Size(u))], u.entry);
            && m.Some? && m.value == u.entry.(bp := 0, sp := -(Size(u) as int), flags := None,
                                              stack := Put(u.entry.stack, 0, u.entry.bp))
  {
    EntrySp(u);
    EnterSteps(u.w, u.entry, Size(u));
    hide *;
    RunOne(u.w, PushBp, u.entry);
    RunThen(u.w, [PushBp], MoveSpBp, u.entry);
    RunThen(u.w, [PushBp] + [MoveSpBp], SubSp(Size(u)), u.entry);
    assert [PushBp] + [MoveSpBp] + [SubSp(Size(u))] == [PushBp, MoveSpBp, SubSp(Size(u))];
  }

  lemma EnterSteps(w: World, m: Machine, size: nat)
    requires m.sp == 8
    ensures var m1 := m.(sp := 0, stack := Put(m.stack, 0, m.bp));
            && Do(w, PushBp, m) == Some(m1) && Do(w, MoveSpBp, m1) == Some(m1.(bp := 0))
            && Do(w, SubSp(size), m1.(bp := 0)) == Some(m1.(bp := 0, sp := -(size as int), flags := None))
  {
    hide Put;
  }

  lemma PushKeeps(u: Compilation)
    requires Good(u)
    ensures EntryIntact(u, Put(u.entry.stack, 0, u.entry.bp))
  {
    var stack := Put(u.entry.stack, 0, u.entry.bp);
    assert Locals(u.w, stack) == Locals(u.w, u.entry.stack);
  }

  /** What the IR sees of the machine at entry. */
  function Initial(u: Compilation): State {
    Start(Locals(u.w, u.entry.stack))
  }

  lemma EnteredRelated(u: Compilation, m: Machine)
    requires Good(u) && SavedTo(u, m.stack, 5)
    requires m.bp == 0 && m.sp + Size(u) == 0 && m.gpr == u.entry.gpr && m.xmm == u.entry.xmm && m.trace == []
    ensures Related(u, 0, Initial(u).data, m)
  {
    forall i | 0 <= i < |u.code| && u.code[i].StoreArg? && u.code[i].arg.ArgStack?
      ensures var off := u.code[i].arg.n; off in m.stack && m.stack[off] == u.w.env.incoming(u.code[i].arg)
    {
      assert ArgArrived(u.w.env, u.entry, u.code[i].arg);
    }
  }

  /** The prologue leads to the first block, with nothing but the frame added. */
  lemma PrologueRuns(u: Compilation) returns (m: Machine)
    requires Good(u)
    ensures Standing(u, Initial(u), Going(Pos(u, 0), m))
    ensures XSteps(u.w, Program(u), Going(0, u.entry), |Prologue(u.a, u.w.base, u.area)|) == Going(Pos(u, 0), m)
  {
    EnterRuns(u);
    PushKeeps(u);
    var first := [PushBp, MoveSpBp, SubSp(Size(u))];
    var m0 := RunAll(u.w, first, u.entry).value;
    assert u.entry.trace == [];
    hide Good, SavedTo, EntryIntact, Put, RunAll, Assembled, XStep, Saves, SaveArea, Related;
    AreaRuns(u, m0);
    RunAppend(u.w, first, SaveArea(u.area), u.entry);
    var m1 := RunAll(u.w, SaveArea(u.area), m0).value;
    SavesRun(u, m1, 5);
    RunAppend(u.w, first + SaveArea(u.area), Saves(u.a, 5), u.entry);
    m := RunAll(u.w, Saves(u.a, 5), m1).value;
    EnteredRelated(u, m);
    FrontOf(u, 0);
    assert Program(u)[0..0 + |Prologue(u.a, u.w.base, u.area)|] == Prologue(u.a, u.w.base, u.area);
    StraightSteps(u.w, Program(u), 0, Prologue(u.a, u.w.base, u.area), u.entry);
  }

  // ----- the theorem -----

  lemma Advance(u: Compilation, s: State, x: XState) returns (i: nat, j: nat)
    requires Good(u) && Standing(u, s, x)
    ensures i >= 1 && Reached(u, s, x, i, j)
  {
    hide *;
    StandingIs(u, s, x);
    var k, d, m := s.pc, s.data, x.m;
    i, j := 1, 0;
    StepsOne(u.w.env, u.code, s);
    StuckTraps(u.w.env, u.code, s);
    if k < |u.code| {
      if Fused(u.code, k) {
        i := 2;
        j := AdvanceFused(u, k, d, m);
      } else if u.code[k].JmpIf? {
        j := AdvanceBranch(u, k, d, m);
      } else if u.code[k].Jmp? {
        j := 1;
        AdvanceJump(u, k, d, m);
      } else if u.code[k].Ret? {
        j := AdvanceReturn(u, k, d, m);
      } else if Exec(u.w.env, u.code[k], d).Next? {
        j := AdvanceFalling(u, k, d, m, Exec(u.w.env, u.code[k], d).data);
        ReachedIs(u, s, x, i, j);
      } else {
        OnlyStuck(u.w.env, u.code[k], d);
        ReachedIs(u, s, x, i, j);
      }
    } else {
      ReachedIs(u, s, x, i, j);
    }
  }

  lemma StuckTraps(env: Env, code: Code, s: State)
    requires s.Run?
    ensures s.pc >= |code| || Exec(env, code[s.pc], s.data).Stuck? ==> Step(env, code, s).Trap?
  {
    hide Exec;
  }

  lemma OnlyStuck(env: Env, inst: Inst, d: Data)
    requires !inst.Jmp? && !inst.JmpIf? && !inst.Ret? && !Exec(env, inst, d).Next?
    ensures Exec(env, inst, d).Stuck?
  {
  }

  ghost predicate Together(u: Compilation, s: State, x: XState) {
    s.Trap? || Ended(u, s, x) || Standing(u, s, x)
  }

  /** From standing together, both sides step and are together again. */
  lemma {:induction false} StepTogether(u: Compilation, s: State, x: XState) returns (i: nat, j: nat)
    requires Good(u) && Standing(u, s, x)
    ensures i >= 1 && j >= 1 && Together(u, Steps(u.w.env, u.code, s, i), XSteps(u.w, Program(u), x, j))
    decreases |u.code| - s.pc
  {
    hide Good, Related, Restored, Pos, Assembled, Fused, Step, XStep;
    i, j := Advance(u, s, x);
    var s', x' := Steps(u.w.env, u.code, s, i), XSteps(u.w, Program(u), x, j);
    if s'.Trap? {
      j := j + 1;
    } else if j == 0 && Standing(u, s', x') {
      var i', j' := StepTogether(u, s', x');
      StepsAdd(u.w.env, u.code, s, i, i');
      i, j := i + i', j';
    } else if j == 0 {
      assert x' == x;
      assert Ended(u, s', x);
      EndedReturned(u, s', x);
    }
  }

  lemma EndedReturned(u: Compilation, s: State, x: XState)
    requires Ended(u, s, x)
    ensures x.Returned? && s.Done?
  {
  }

  lemma {:induction false} XStopped(w: World, asm: seq<Asm>, x: XState, n: nat)
    requires !x.Going?
    ensures XSteps(w, asm, x, n) == x
  {
    if n > 0 { XStopped(w, asm, x, n - 1); }
  }

  lemma XStays(w: World, asm: seq<Asm>, x: XState, m: nat, n: nat)
    requires m <= n && !XSteps(w, asm, x, m).Going?
    ensures XSteps(w, asm, x, n) == XSteps(w, asm, x, m)
  {
    XStepsAdd(w, asm, x, m, n - m);
    XStopped(w, asm, XSteps(w, asm, x, m), n - m);
  }

  /** However far the IR runs, both sides come together at least as far. */
  lemma {:induction false} KeepTogether(u: Compilation, n: nat) returns (i: nat, j: nat)
    requires Good(u)
    ensures i >= n && j >= n
    ensures Together(u, Steps(u.w.env, u.code, Initial(u), i), XSteps(u.w, Program(u), Going(0, u.entry), j))
  {
    hide Good, Standing, Ended, Assembled, Step, XStep, Prologue, Pos, Initial;
    if n == 0 {
      var m := PrologueRuns(u);
      i, j := 0, |Prologue(u.a, u.w.base, u.area)|;
    } else {
      i, j := KeepTogether(u, n - 1);
      var s, x := Steps(u.w.env, u.code, Initial(u), i), XSteps(u.w, Program(u), Going(0, u.entry), j);
      if Standing(u, s, x) {
        var i', j' := StepTogether(u, s, x);
        StepsAdd(u.w.env, u.code, Initial(u), i, i');
        XStepsAdd(u.w, Program(u), Going(0, u.entry), j, j');
        i, j := i + i', j + j';
      } else {
        if Ended(u, s, x) {
          EndedReturned(u, s, x);
          XStays(u.w, Program(u), Going(0, u.entry), j, j + 1);
        }
        StaysStopped(u.w.env, u.code, Initial(u), i, i + 1);
        i, j := i + 1, j + 1;
      }
    }
  }

  ghost predicate XReturns(u: Compilation, final: State) {
    exists n: nat :: Ended(u, final, XSteps(u.w, Program(u), Going(0, u.entry), n))
  }

  /** Whenever the IR returns, the compiled function returns the same value after the same stores and calls,
      with rbx, r12 to r15, rbp and rsp as its caller left them. */
  lemma CompiledReturns(u: Compilation, final: State)
    requires Good(u) && final.Done? && Reaches(u.w.env, u.code, Initial(u), final)
    ensures XReturns(u, final)
  {
    hide Good, Ended, Assembled, Step, XStep, Prologue, Related, Pos, Fused;
    var n: nat :| Steps(u.w.env, u.code, Initial(u), n) == final;
    var i, j := KeepTogether(u, n);
    StaysStopped(u.w.env, u.code, Initial(u), n, i);
    assert Ended(u, final, XSteps(u.w, Program(u), Going(0, u.entry), j));
  }

  ghost predicate XPerforms(u: Compilation, trace: Trace) {
    exists n: nat :: var x := XSteps(u.w, Program(u), Going(0, u.entry), n); x.Going? && trace <= x.m.trace
  }

  lemma StandingTrace(u: Compilation, s: State, x: XState)
    requires Standing(u, s, x)
    ensures s.Run? && x.Going? && x.m.trace == s.data.trace
  {
    RelatedIs(u, s.pc, s.data, x.m);
    SettledTrace(u, s.data, x.m);
  }

  /** While the IR runs on, so does the compiled function: it never faults, so in particular it never leaves
      its frame, never reads a register or cell that holds nothing known, and calls with the stack aligned. */
  lemma CompiledRunsOn(u: Compilation, n: nat)
    requires Good(u) && RunsForever(u.w.env, u.code, Initial(u))
    ensures XSteps(u.w, Program(u), Going(0, u.entry), n).Going?
  {
    hide Good, Assembled, Step, XStep, Prologue, Related, Pos, Fused, Restored;
    var i, j := KeepTogether(u, n);
    assert Steps(u.w.env, u.code, Initial(u), i).Run?;
    if !XSteps(u.w, Program(u), Going(0, u.entry), n).Going? {
      XStays(u.w, Program(u), Going(0, u.entry), n, j);
      assert false;
    }
  }

  lemma XTraceGrows(w: World, asm: seq<Asm>, x: XState)
    requires x.Going? && XStep(w, asm, x).Going?
    ensures x.m.trace <= XStep(w, asm, x).m.trace
  {
    if x.pc < |asm| && Do(w, asm[x.pc], x.m).Some? { DoTraceGrows(w, asm[x.pc], x.m); }
    hide Do;
  }

  lemma DoTraceGrows(w: World, i: Asm, m: Machine)
    requires Do(w, i, m).Some?
    ensures m.trace <= Do(w, i, m).value.trace
  {
    hide Put, Wrap, Alu, Quotient;
  }

  lemma {:induction false} XTracesGrow(w: World, asm: seq<Asm>, x: XState, n: nat)
    requires x.Going? && XSteps(w, asm, x, n).Going?
    ensures x.m.trace <= XSteps(w, asm, x, n).m.trace
    decreases n
  {
    hide XStep;
    if n > 0 {
      var y := XStep(w, asm, x);
      if !y.Going? { XStopped(w, asm, y, n - 1); }
      XTraceGrows(w, asm, x);
      XTracesGrow(w, asm, y, n - 1);
    }
  }

  /** A run without end performs the same stores and calls on both sides. */
  lemma CompiledPerforms(u: Compilation, trace: Trace)
    requires Good(u) && RunsForever(u.w.env, u.code, Initial(u))
    ensures Performs(u.w.env, u.code, Initial(u), trace) <==> XPerforms(u, trace)
  {
    hide Good, Assembled, Step, XStep, Prologue, Related, Pos, Fused, Restored, Standing, Initial;
    if n: nat :| Steps(u.w.env, u.code, Initial(u), n).Run?
                 && trace <= Steps(u.w.env, u.code, Initial(u), n).data.trace {
      var i, j := KeepTogether(u, n);
      assert Steps(u.w.env, u.code, Initial(u), i).Run?;
      TraceGrows(u.w.env, u.code, Initial(u), n, i);
      StandingTrace(u, Steps(u.w.env, u.code, Initial(u), i), XSteps(u.w, Program(u), Going(0, u.entry), j));
      assert trace <= XSteps(u.w, Program(u), Going(0, u.entry), j).m.trace;
    }
    if n: nat :| XSteps(u.w, Program(u), Going(0, u.entry), n).Going?
                 && trace <= XSteps(u.w, Program(u), Going(0, u.entry), n).m.trace {
      var i, j := KeepTogether(u, n);
      assert Steps(u.w.env, u.code, Initial(u), i).Run?;
      StandingTrace(u, Steps(u.w.env, u.code, Initial(u), i), XSteps(u.w, Program(u), Going(0, u.entry), j));
      XStepsAdd(u.w, Program(u), Going(0, u.entry), n, j - n);
      XTracesGrow(u.w, Program(u), XSteps(u.w, Program(u), Going(0, u.entry), n), j - n);
      assert trace <= Steps(u.w.env, u.code, Initial(u), i).data.trace;
    }
  }
}
