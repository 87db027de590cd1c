/** Basic control-flow optimisation (`opt_cfg_optimization`): constant branches, jumps to the next
    instruction, jump threading and unused labels, in that order. */
module CfgOpt {
  import opened Word64
  import opened IR
  import opened Simulation
  import opened LoweredForm
  import opened Lockstep
  import opened Deletion
  import opened Editing
  import opened Function

  // ===== 1. constant conditional branches =====

  predicate AlwaysTaken(inst: Inst) {
    inst.JmpIf? && inst.cond.Imm? && (inst.cond.i != 0) == inst.nonzero
  }

  predicate NeverTaken(inst: Inst) {
    inst.JmpIf? && inst.cond.Imm? && (inst.cond.i != 0) != inst.nonzero
  }

  function Resolve(inst: Inst): Inst {
    if AlwaysTaken(inst) then Jmp(inst.to) else inst
  }

  ghost function Resolved(code: Code): (q: Code)
    ensures |q| == |code|
  {
    seq(|code|, i requires 0 <= i < |code| => Resolve(code[i]))
  }

  ghost function SometimesTaken(code: Code): (keep: seq<bool>)
    ensures |keep| == |code|
  {
    seq(|code|, i requires 0 <= i < |code| => !NeverTaken(code[i]))
  }

  ghost function BranchesResolved(code: Code): Code {
    Filter(Resolved(code), SometimesTaken(code))
  }

  lemma BranchesResolvedAre(code: Code)
    ensures BranchesResolved(code) == Filter(Resolved(code), SometimesTaken(code))
  {
  }

  lemma ResolvedAt(code: Code, i: nat)
    requires i < |code|
    ensures SometimesTaken(code)[i] <==> !NeverTaken(code[i])
    ensures AlwaysTaken(code[i]) ==> code[i].JmpIf? && Resolved(code)[i] == Jmp(code[i].to)
    ensures !AlwaysTaken(code[i]) ==> Resolved(code)[i] == code[i]
  {
  }

  method ResolveBranches(fn: IRFunction) returns (changed: bool)
    modifies fn
    ensures fn.insts == BranchesResolved(old(fn.insts))
    ensures Resolves(old(fn.insts), fn.insts)
    ensures !changed ==> fn.insts == old(fn.insts)
  {
    hide *;
    ghost var code, i := fn.insts, 0;
    ghost var q, keep := Resolved(code), SometimesTaken(code);
    var pos := 0;
    changed := false;
    SweepStart(code, q, keep);
    BranchesResolvedAre(code);
    while pos < |fn.insts|
      invariant i <= |code| && Swept(code, q, keep, i, fn.insts, pos)
      invariant !changed ==> fn.insts == code
      decreases |fn.insts| - pos
    {
      SweepAt(code, q, keep, i, fn.insts, pos);
      ResolvedAt(code, i);
      var inst := fn.insts[pos];
      if NeverTaken(inst) {
        SweepDrop(code, q, keep, i, fn.insts, pos);
        fn.Remove(pos);
        changed := true;
      } else {
        SweepKeep(code, q, keep, i, fn.insts, pos);
        if AlwaysTaken(inst) {
          fn.Replace(pos, Jmp(inst.to));
          changed := true;
        } else {
          assert fn.insts[pos := q[i]] == fn.insts;
        }
        pos := pos + 1;
      }
      i := i + 1;
    }
    SweepEnd(code, q, keep, i, fn.insts, pos);
    BranchesResolve(code);
  }

  ghost function Always(): Fact {
    (i: nat, d: Data) => true
  }

  lemma ResolvedControl(code: Code)
    ensures SameControl(code, Resolved(code))
  {
  }

  lemma ResolvedKeepsTargets(code: Code)
    requires TargetsExist(code)
    ensures KeepsTargets(Resolved(code), SometimesTaken(code))
  {
    var q := Resolved(code);
    ResolvedControl(code);
    forall i | 0 <= i < |q| && IsJump(q[i]) ensures Find(q, q[i].to) < |q| && SometimesTaken(code)[Find(q, q[i].to)] {
      SameControlSameFind(code, q, q[i].to);
    }
  }

  lemma ResolveShape(inst: Inst)
    ensures var inst' := Resolve(inst);
            Uses(inst') <= Uses(inst) && Reshapes(inst, inst')
  {
  }

  lemma ResolvedKeepsForm(code: Code)
    requires Lowered(code)
    ensures Lowered(Resolved(code)) && NoNew(code, Resolved(code)) && KeepsTargets(Resolved(code), SometimesTaken(code))
  {
    hide Resolve;
    var q := Resolved(code);
    ResolvedControl(code);
    ResolvedKeepsTargets(code);
    forall i | 0 <= i < |code|
      ensures Reshapes(code[i], q[i])
      ensures forall v :: v in Uses(q[i]) ==> UseOK(code, v, i)
    {
      ResolveShape(code[i]);
    }
    RewritingKeepsForm(code, q);
  }

  lemma BranchesPreserves(env: Env, code: Code)
    requires Lowered(code)
    ensures Preserves(env, code, BranchesResolved(code)) && Lowered(BranchesResolved(code))
        && NoNew(code, BranchesResolved(code))
  {
    hide Lowered, KeepsTargets, NoNew;
    ResolvedControl(code);
    ResolvedKeepsForm(code);
    var q, keep := Resolved(code), SometimesTaken(code);
    assert UniqueMarks(q) by { LoweredMarks(q); }
    ResolvedPreserves(env, code);
    NeverTakenIsNoOp(env, code);
    NoOpDeletionPreserves(env, q, keep);
    PreservesTransitive(env, code, q, BranchesResolved(code));
    KeepsConstants(q, keep);
    FilterKeepsForm(q, keep);
    NoNewTransitive(code, q, BranchesResolved(code));
  }

  lemma ResolvedPreserves(env: Env, code: Code)
    requires SameControl(code, Resolved(code))
    ensures Preserves(env, code, Resolved(code))
  {
    forall i: nat, d: Data | i < |code| && Always()(i, d)
      ensures KeepsStep(env, code, Resolved(code), Always(), i, d)
    {
    }
    LockstepPreserves(env, code, Resolved(code), Always());
  }

  lemma NeverTakenIsNoOp(env: Env, code: Code)
    ensures forall i: nat, d: Data :: i < |code| && !SometimesTaken(code)[i] ==>
              Unnoticed(env, Resolved(code), SameDataWhere(Everywhere()), i, d, d)
  {
  }

  // ===== 2. jumps to the instruction that follows =====

  predicate JumpsToNext(inst: Inst, next: Inst) {
    IsJump(inst) && next == Mark(inst.to)
  }

  ghost function NotToNext(code: Code): (keep: seq<bool>)
    ensures |keep| == |code|
  {
    seq(|code|, i requires 0 <= i < |code| => !(i + 1 < |code| && JumpsToNext(code[i], code[i + 1])))
  }

  ghost function WithoutDeadJumps(code: Code): Code {
    Filter(code, NotToNext(code))
  }

  lemma DeadJumpAtCursor(code: Code, i: nat, insts: Code, pos: nat)
    requires Swept(code, code, NotToNext(code), i, insts, pos) && pos < |insts|
    ensures i < |code|
    ensures NotToNext(code)[i] <==> !(pos + 1 < |insts| && JumpsToNext(insts[pos], insts[pos + 1]))
  {
    SweepAt(code, code, NotToNext(code), i, insts, pos);
    SweepAhead(code, code, NotToNext(code), i, insts, pos, 1);
  }

  method RemoveDeadJumps(fn: IRFunction) returns (changed: bool)
    modifies fn
    ensures fn.insts == WithoutDeadJumps(old(fn.insts))
    ensures LeftOut(old(fn.insts), fn.insts, JumpsAhead(old(fn.insts)))
    ensures !changed ==> fn.insts == old(fn.insts)
  {
    hide *;
    ghost var code, i := fn.insts, 0;
    ghost var keep := NotToNext(code);
    var pos := 0;
    changed := false;
    SweepStart(code, code, keep);
    while pos < |fn.insts|
      invariant i <= |code| && Swept(code, code, keep, i, fn.insts, pos)
      invariant !changed ==> fn.insts == code
      decreases |fn.insts| - pos
    {
      DeadJumpAtCursor(code, i, fn.insts, pos);
      if pos + 1 < |fn.insts| && JumpsToNext(fn.insts[pos], fn.insts[pos + 1]) {
        SweepDrop(code, code, keep, i, fn.insts, pos);
        fn.Remove(pos);
        changed := true;
      } else {
        SweepPast(code, code, keep, i, fn.insts, pos);
        pos := pos + 1;
      }
      i := i + 1;
    }
    SweepEnd(code, code, keep, i, fn.insts, pos);
    WithoutDeadJumpsIs(code);
    JumpsLeave(code);
  }

  lemma WithoutDeadJumpsIs(code: Code)
    ensures WithoutDeadJumps(code) == Filter(code, NotToNext(code))
  {
  }

  lemma DeadJumpsPreserves(env: Env, code: Code)
    requires Lowered(code)
    ensures Preserves(env, code, WithoutDeadJumps(code)) && Lowered(WithoutDeadJumps(code))
        && NoNew(code, WithoutDeadJumps(code))
  {
    hide Lowered, NoNew, LosesConstants;
    LoweredMarks(code);
    var keep := NotToNext(code);
    assert KeepsTargets(code, keep);
    var rel := SameDataWhere(Everywhere());
    forall i: nat, d: Data | i < |code| && !keep[i]
      ensures Unnoticed(env, code, rel, i, d, d) || Absorbed(env, code, keep, rel, i, d, d)
    {
      JumpAbsorbed(env, code, i, d);
    }
    KeepsConstants(code, keep);
    hide NotToNext;
    NoOpDeletionPreserves(env, code, keep);
    FilterKeepsForm(code, keep);
  }

  lemma JumpAbsorbed(env: Env, code: Code, i: nat, d: Data)
    requires i < |code| && !NotToNext(code)[i]
    ensures var rel := SameDataWhere(Everywhere());
            Unnoticed(env, code, rel, i, d, d) || Absorbed(env, code, NotToNext(code), rel, i, d, d)
  {
    JumpHasNoEffect(env, code[i], d);
    hide Exec;
  }

  lemma JumpHasNoEffect(env: Env, inst: Inst, d: Data)
    requires IsJump(inst)
    ensures var o := Exec(env, inst, d); o.Stuck? || o == Next(d) || o == Goto(inst.to)
  {
  }

  // ===== 3. jump threading =====

  const MAX_HOPS: nat := 8

  /** Behind the mark of `l` stands a jump to another label, and hops are left. */
  predicate Threads(code: Code, l: Label, hops: nat) {
    var b := Find(code, l);
    hops > 0 && b + 1 < |code| && code[b + 1].Jmp? && code[b + 1].to != l
  }

  /** Where a jump to `l` ends up after at most `hops` further unconditional jumps. */
  function Thread(code: Code, l: Label, hops: nat): Label
    decreases hops
  {
    if Threads(code, l, hops) then Thread(code, code[Find(code, l) + 1].to, hops - 1) else l
  }

  method FindMark(code: Code, l: Label) returns (b: nat)
    ensures b == Find(code, l)
  {
    b := 0;
    while b < |code| && code[b] != Mark(l)
      invariant b <= |code| && forall j :: 0 <= j < b ==> code[j] != Mark(l)
    {
      b := b + 1;
    }
  }

  method ThreadJumpTarget(code: Code, target: Label) returns (curr: Label)
    ensures curr == Thread(code, target, MAX_HOPS)
    ensures exists n: nat :: n <= 8 && Hops(code, target, curr, n) && (n < 8 ==> Hop(code, curr).None?)
  {
    ghost var n := HopsTaken(code, target, MAX_HOPS);
    curr := target;
    var hop := 0;
    while hop < MAX_HOPS
      invariant hop <= MAX_HOPS && Thread(code, curr, MAX_HOPS - hop) == Thread(code, target, MAX_HOPS)
    {
      var b := FindMark(code, curr);
      if b + 1 >= |code| || !code[b + 1].Jmp? || code[b + 1].to == curr { break; }
      curr, hop := code[b + 1].to, hop + 1;
    }
  }

  function Aim(inst: Inst, l: Label): Inst
    requires IsJump(inst)
  {
    if inst.Jmp? then Jmp(l) else JmpIf(inst.nonzero, inst.cond, l)
  }

  function ThreadedAt(code: Code, i: nat): (q: Code)
    requires i < |code|
    ensures |q| == |code|
  {
    if IsJump(code[i]) then code[i := Aim(code[i], Thread(code, code[i].to, MAX_HOPS))] else code
  }

  /** Each jump is threaded through the list as the earlier ones left it. */
  ghost function ThreadedFrom(code: Code, i: nat): Code
    decreases |code| - i
  {
    if i >= |code| then code else ThreadedFrom(ThreadedAt(code, i), i + 1)
  }

  method ThreadJumps(fn: IRFunction) returns (changed: bool)
    modifies fn
    ensures fn.insts == ThreadedFrom(old(fn.insts), 0)
    ensures Threaded(old(fn.insts), fn.insts)
    ensures !changed ==> fn.insts == old(fn.insts)
  {
    ghost var code := fn.insts;
    var n := |fn.insts|;
    changed := false;
    for i := 0 to n
      invariant |fn.insts| == n && ThreadedFrom(fn.insts, i) == ThreadedFrom(code, 0)
      invariant !changed ==> fn.insts == code
    {
      var inst := fn.insts[i];
      if IsJump(inst) {
        var target := ThreadJumpTarget(fn.insts, inst.to);
        assert ThreadedAt(fn.insts, i) == fn.insts[i := Aim(inst, target)];
        if target != inst.to {
          fn.Replace(i, Aim(inst, target));
          changed := true;
        } else {
          assert fn.insts[i := Aim(inst, target)] == fn.insts;
        }
      }
    }
    hide Threaded, ThreadedFrom;
    ThreadedAll(code);
  }

  /** Threading stays among existing marks. */
  lemma {:induction false} ThreadExists(code: Code, l: Label, hops: nat)
    requires TargetsExist(code) && Find(code, l) < |code|
    ensures Find(code, Thread(code, l, hops)) < |code|
    decreases hops
  {
    var b := Find(code, l);
    if hops > 0 && b + 1 < |code| && code[b + 1].Jmp? && code[b + 1].to != l {
      ThreadExists(code, code[b + 1].to, hops - 1);
    }
  }

  /** Control behind the mark of `l` comes, by jumps alone, behind the mark the threaded jump names. */
  lemma {:induction false} ThreadReaches(env: Env, code: Code, l: Label, hops: nat, d: Data) returns (n: nat)
    ensures Steps(env, code, Run(Find(code, l) + 1, d), n) == Run(Find(code, Thread(code, l, hops)) + 1, d)
    decreases hops
  {
    hide *;
    var b := Find(code, l);
    n := 0;
    ZeroSteps(env, code, Run(b + 1, d));
    ThreadNext(code, l, hops);
    if Threads(code, l, hops) {
      var next := code[b + 1].to;
      n := ThreadReaches(env, code, next, hops - 1, d);
      JumpHop(env, code, b + 1, next, d);
      StepsAdd(env, code, Run(b + 1, d), 1, n);
      n := 1 + n;
    }
  }

  lemma ThreadNext(code: Code, l: Label, hops: nat)
    ensures Threads(code, l, hops) ==>
              var b := Find(code, l);
              hops > 0 && b + 1 < |code| && code[b + 1].Jmp?
                && Thread(code, l, hops) == Thread(code, code[b + 1].to, hops - 1)
    ensures !Threads(code, l, hops) ==> Thread(code, l, hops) == l
  {
  }

  lemma JumpHop(env: Env, code: Code, p: nat, l: Label, d: Data)
    requires p < |code| && code[p] == Jmp(l)
    ensures Steps(env, code, Run(p, d), 1) == Run(Find(code, l) + 1, d)
  {
    hide Step, Exec, Find;
    ControlStep(env, code, Run(p, d));
    OneStep(env, code, Run(p, d));
  }

  /** A way closed against a jump to a mark is closed against a jump to where control goes from there. */
  lemma {:induction false} ThreadImplied(code: Code, x: int, l: Label, hops: nat)
    requires TargetsExist(code) && Find(code, l) < |code| && Implied(code, x, Find(code, l))
    ensures Implied(code, x, Find(code, Thread(code, l, hops)))
    decreases hops
  {
    var b := Find(code, l);
    if Threads(code, l, hops) {
      ImpliedThrough(code, x, b, code[b + 1].to);
      ThreadImplied(code, x, code[b + 1].to, hops - 1);
    }
  }

  lemma ImpliedThrough(code: Code, x: int, b: nat, l: Label)
    requires b + 1 < |code| && code[b].Mark? && code[b + 1] == Jmp(l) && Implied(code, x, b)
    ensures Implied(code, x, Find(code, l))
  {
    var y := Find(code, l);
    forall j, l', k | Arms(code, j, l') && Def(code[j]).Some? && l' < k < |code| && !code[k].Mark?
                  && Shut(code, j, l', k) && l' < y < k
      ensures j < x <= k
    {
      assert j < b + 1 <= k;
      assert j != b && b != l' && b + 1 != l';
      assert !(j < b < b + 1 < l');
      assert l' < b < k;
    }
  }

  lemma ThreadedFind(code: Code, i: nat, l: Label)
    requires i < |code|
    ensures Find(ThreadedAt(code, i), l) == Find(code, l)
  {
    SameMarksSameFind(code, ThreadedAt(code, i), l);
  }

  lemma ThreadedJumps(code: Code, i: nat)
    requires TargetsExist(code) && i < |code| && IsJump(code[i])
    ensures JumpsImplied(code, ThreadedAt(code, i), Identity(|code|))
  {
    var q, e := ThreadedAt(code, i), Identity(|code|);
    forall j | 0 <= j < |q| && IsJump(q[j]) ensures Find(q, q[j].to) < |q| && Implied(code, e[j], e[Find(q, q[j].to)]) {
      ThreadedFind(code, i, q[j].to);
      OwnJumpsImplied(code, j);
      if j == i {
        ThreadExists(code, code[i].to, MAX_HOPS);
        ThreadImplied(code, i, code[i].to, MAX_HOPS);
      }
    }
  }

  lemma AimShape(inst: Inst, l: Label)
    requires IsJump(inst)
    ensures var inst' := Aim(inst, l);
            IsJump(inst') && inst'.to == l && Uses(inst') == Uses(inst) && Def(inst').None? && Def(inst).None?
              && Reshapes(inst, inst')
  {
  }

  lemma ThreadedEmbeds(code: Code, i: nat)
    requires UsesFollowDefinitions(code) && i < |code| && IsJump(code[i])
    ensures Embeds(code, ThreadedAt(code, i), Identity(|code|))
        && ArmsSurvive(code, ThreadedAt(code, i), Identity(|code|))
  {
    hide Aim, Uses, UsesFollowDefinitions, Embeds, ArmsSurvive;
    AimShape(code[i], Thread(code, code[i].to, MAX_HOPS));
    InPlaceEmbeds(code, ThreadedAt(code, i));
  }

  lemma ThreadedKeepsForm(code: Code, i: nat)
    requires Lowered(code) && i < |code|
    ensures Lowered(ThreadedAt(code, i)) && NoNew(code, ThreadedAt(code, i))
  {
    if IsJump(code[i]) {
      ThreadedEmbeds(code, i);
      ThreadedJumps(code, i);
      hide Thread, Embeds, ArmsSurvive, JumpsImplied, UsesFollowDefinitions, ThreadedAt, NoNew;
      EmbeddingKeepsForm(code, ThreadedAt(code, i), Identity(|code|));
    }
  }

  ghost function SameState(): Relation {
    (s: State, t: State) => s == t
  }

  lemma AimedStep(env: Env, inst: Inst, l: Label, d: Data)
    requires IsJump(inst)
    ensures var o := Exec(env, inst, d);
            Exec(env, Aim(inst, l), d) == (if o.Goto? then Goto(l) else o)
    ensures Exec(env, inst, d).Goto? ==> Exec(env, inst, d).to == inst.to
  {
  }

  lemma ThreadedJumpTaken(env: Env, code: Code, i: nat, s: State)
    requires i < |code| && IsJump(code[i]) && s.Run? && s.pc == i && Exec(env, code[i], s.data).Goto?
    ensures Advances(env, code, ThreadedAt(code, i), SameState(), s, s)
  {
    hide Exec, Thread;
    var q, l := ThreadedAt(code, i), code[i].to;
    AimedStep(env, code[i], Thread(code, l, MAX_HOPS), s.data);
    var n := ThreadReaches(env, code, l, MAX_HOPS, s.data);
    OneStep(env, code, s);
    OneStep(env, q, s);
    StepsAdd(env, code, s, 1, n);
    ThreadedFind(code, i, Thread(code, l, MAX_HOPS));
    assert Steps(env, code, s, 1 + n) == Steps(env, q, s, 1);
    assert MatchedBy(env, code, q, SameState(), s, s, 1 + n, 1);
  }

  lemma ThreadedAdvances(env: Env, code: Code, i: nat, s: State)
    requires i < |code| && IsJump(code[i]) && s.Run?
    ensures Advances(env, code, ThreadedAt(code, i), SameState(), s, s)
  {
    hide Exec, Thread;
    var q := ThreadedAt(code, i);
    if s.pc == i && Exec(env, code[i], s.data).Goto? {
      ThreadedJumpTaken(env, code, i, s);
    } else {
      OneStep(env, code, s);
      OneStep(env, q, s);
      if s.pc < |code| {
        var o := Exec(env, code[s.pc], s.data);
        if s.pc == i { AimedStep(env, code[i], Thread(code, code[i].to, MAX_HOPS), s.data); }
        if o.Goto? { ThreadedFind(code, i, o.to); }
      }
      assert MatchedBy(env, code, q, SameState(), s, s, 1, 1);
    }
  }

  lemma ThreadedPreserves(env: Env, code: Code, i: nat)
    requires Lowered(code) && i < |code|
    ensures Preserves(env, code, ThreadedAt(code, i))
  {
    if IsJump(code[i]) {
      forall s: State, t: State | s.Run? && t.Run? && s.data.trace == t.data.trace && SameState()(s, t)
        ensures Advances(env, code, ThreadedAt(code, i), SameState(), s, t)
      {
        ThreadedAdvances(env, code, i, s);
      }
      PreservesBySimulation(env, code, ThreadedAt(code, i), SameState());
    } else {
      PreservesItself(env, code);
    }
  }

  lemma ThreadedTaken(code: Code, i: nat)
    requires i < |code|
    ensures Taken(ThreadedAt(code, i)) == Taken(code)
  {
    hide Thread;
    var q := ThreadedAt(code, i);
    assert forall j :: 0 <= j < |code| ==> (code[j].AddrStack? <==> q[j].AddrStack?)
                                           && (code[j].AddrStack? ==> q[j] == code[j]);
  }

  lemma ThreadedNext(code: Code, i: nat)
    requires i < |code|
    ensures ThreadedFrom(code, i) == ThreadedFrom(ThreadedAt(code, i), i + 1)
  {
  }

  /** Threading every jump, also around cycles of jumps, changes no run. */
  lemma {:induction false} ThreadingPreserves(env: Env, code: Code, i: nat)
    requires Lowered(code)
    ensures Preserves(env, code, ThreadedFrom(code, i)) && Lowered(ThreadedFrom(code, i))
        && NoNew(code, ThreadedFrom(code, i))
    ensures Taken(ThreadedFrom(code, i)) == Taken(code)
    decreases |code| - i
  {
    hide Preserves, Lowered, Taken, ThreadedAt;
    if i >= |code| {
      PreservesItself(env, code);
    } else {
      hide ThreadedFrom, NoNew;
      var q := ThreadedAt(code, i);
      ThreadedNext(code, i);
      ThreadedPreserves(env, code, i);
      ThreadedKeepsForm(code, i);
      ThreadedTaken(code, i);
      ThreadingPreserves(env, q, i + 1);
      PreservesTransitive(env, code, q, ThreadedFrom(code, i));
      NoNewTransitive(code, q, ThreadedFrom(code, i));
    }
  }

  // ===== 4. unused labels =====

  ghost predicate Referenced(code: Code, l: Label) {
    exists i :: 0 <= i < |code| && IsJump(code[i]) && code[i].to == l
  }

  method IsReferenced(code: Code, l: Label) returns (referenced: bool)
    ensures referenced <==> Referenced(code, l)
  {
    for i := 0 to |code|
      invariant forall j :: 0 <= j < i ==> !(IsJump(code[j]) && code[j].to == l)
    {
      if IsJump(code[i]) && code[i].to == l { return true; }
    }
    return false;
  }

  predicate EndsControl(inst: Inst) {
    inst.Jmp? || inst.Ret?
  }

  /** The index of the last instruction kept so far, or -1. */
  function LastKept(keep: seq<bool>): (j: int)
    ensures -1 <= j < |keep|
    ensures j >= 0 ==> keep[j]
    ensures forall m :: j < m < |keep| ==> !keep[m]
  {
    if keep == [] then -1
    else if keep[|keep| - 1] then |keep| - 1
    else LastKept(keep[..|keep| - 1])
  }

  /** A label nobody jumps to goes, but only if control can fall into it. */
  ghost predicate Superfluous(code: Code, keep: seq<bool>, i: nat)
    requires |keep| == i < |code|
  {
    var j := LastKept(keep);
    code[i].Mark? && !Referenced(code, code[i].l) && (j < 0 || !EndsControl(code[j]))
  }

  ghost function UsefulTo(code: Code, i: nat): (keep: seq<bool>)
    requires i <= |code|
    ensures |keep| == i
  {
    if i == 0 then [] else UsefulTo(code, i - 1) + [!Superfluous(code, UsefulTo(code, i - 1), i - 1)]
  }

  ghost function WithoutUnusedLabels(code: Code): Code {
    Filter(code, UsefulTo(code, |code|))
  }

  lemma {:induction false} UsefulPrefix(code: Code, i: nat, n: nat)
    requires i <= n <= |code|
    ensures UsefulTo(code, n)[..i] == UsefulTo(code, i)
    decreases n
  {
    if i < n {
      UsefulPrefix(code, i, n - 1);
      assert UsefulTo(code, n)[..i] == UsefulTo(code, n - 1)[..i];
    }
  }

  lemma UsefulAt(code: Code, i: nat)
    requires i < |code|
    ensures UsefulTo(code, |code|)[i] <==> !Superfluous(code, UsefulTo(code, i), i)
  {
    UsefulPrefix(code, i + 1, |code|);
    assert UsefulTo(code, |code|)[i] == UsefulTo(code, |code|)[..i + 1][i];
  }

  lemma LabelsKeepTargets(code: Code)
    requires TargetsExist(code)
    ensures KeepsTargets(code, UsefulTo(code, |code|))
  {
    var keep := UsefulTo(code, |code|);
    forall i | 0 <= i < |code| && keep[i] && IsJump(code[i])
        ensures Find(code, code[i].to) < |code| && keep[Find(code, code[i].to)] {
      UsefulAt(code, Find(code, code[i].to));
      assert Referenced(code, code[i].to);
    }
  }

  lemma UselessIsMark(code: Code, i: nat)
    requires i < |code| && !UsefulTo(code, |code|)[i]
    ensures code[i].Mark?
  {
    UsefulAt(code, i);
  }

  lemma LabelsPreserves(env: Env, code: Code)
    requires Lowered(code)
    ensures Preserves(env, code, WithoutUnusedLabels(code)) && Lowered(WithoutUnusedLabels(code))
        && NoNew(code, WithoutUnusedLabels(code))
    ensures Taken(WithoutUnusedLabels(code)) == Taken(code)
  {
    var keep := UsefulTo(code, |code|);
    LabelsKeepTargets(code);
    var rel := SameDataWhere(Everywhere());
    forall i: nat | i < |code| && !keep[i] ensures code[i].Mark? { UselessIsMark(code, i); }
    forall i: nat, d: Data | i < |code| && !keep[i]
      ensures Unnoticed(env, code, rel, i, d, d) || Absorbed(env, code, keep, rel, i, d, d)
    {
      assert Exec(env, code[i], d) == Next(d);
    }
    hide Lowered, KeepsTargets, UsefulTo, NoNew;
    LoweredMarks(code);
    NoOpDeletionPreserves(env, code, keep);
    KeepsConstants(code, keep);
    FilterKeepsForm(code, keep);
    FilterTaken(code, keep);
  }

  /** Unlinking labels leaves every jump in place. */
  lemma ReferencedInFilter(code: Code, keep: seq<bool>, l: Label)
    requires |keep| == |code| && forall i :: 0 <= i < |code| && !keep[i] ==> code[i].Mark?
    ensures Referenced(Filter(code, keep), l) <==> Referenced(code, l)
  {
    if Referenced(code, l) {
      var i :| 0 <= i < |code| && IsJump(code[i]) && code[i].to == l;
      FilterAt(code, keep, i);
    }
    if Referenced(Filter(code, keep), l) {
      var j :| 0 <= j < |Filter(code, keep)| && IsJump(Filter(code, keep)[j]) && Filter(code, keep)[j].to == l;
    }
  }

  lemma {:induction false} LastKeptRank(keep: seq<bool>, i: nat)
    requires i <= |keep|
    ensures var j := LastKept(keep[..i]);
            if j < 0 then Rank(keep, i) == 0 else Rank(keep, i) == Rank(keep, j) + 1
  {
    if i > 0 {
      LastKeptRank(keep, i - 1);
      RankNext(keep, i - 1);
      assert keep[..i][..i - 1] == keep[..i - 1];
    }
  }

  lemma ReferencedAtCursor(code: Code, i: nat, insts: Code, pos: nat, l: Label)
    requires Swept(code, code, UsefulTo(code, |code|), i, insts, pos)
    ensures Referenced(insts, l) <==> Referenced(code, l)
  {
    hide *;
    SweptFilter(code, UsefulTo(code, |code|), i, insts, pos);
    var k := KeepTo(UsefulTo(code, |code|), i);
    forall m | 0 <= m < |code| && !k[m] ensures code[m].Mark? { UselessIsMark(code, m); }
    ReferencedInFilter(code, k, l);
  }

  lemma SweptFilter(code: Code, keep: seq<bool>, i: nat, insts: Code, pos: nat)
    requires Swept(code, code, keep, i, insts, pos)
    ensures i <= |keep| == |KeepTo(keep, i)| == |code| && insts == Filter(code, KeepTo(keep, i))
    ensures forall m :: 0 <= m < |code| && !KeepTo(keep, i)[m] ==> !keep[m]
  {
    hide Filter;
    assert code[..i] + code[i..] == code;
  }

  lemma PreviousAtCursor(code: Code, keep: seq<bool>, i: nat, insts: Code, pos: nat)
    requires Swept(code, code, keep, i, insts, pos) && pos <= |insts|
    ensures var j := LastKept(keep[..i]);
            if j < 0 then pos == 0 else pos > 0 && insts[pos - 1] == code[j]
  {
    LastKeptRank(keep, i);
    var j := LastKept(keep[..i]);
    if j >= 0 {
      var k := KeepTo(keep, i);
      assert code[..i] + code[i..] == code;
      KeptSame(k, keep, j);
      FilterAt(code, k, j);
    }
  }

  /** What the pass sees at its cursor decides as the specification does. */
  lemma LabelAtCursor(code: Code, i: nat, insts: Code, pos: nat)
    requires Swept(code, code, UsefulTo(code, |code|), i, insts, pos) && pos < |insts|
    ensures i < |code| && insts[pos] == code[i]
    ensures UsefulTo(code, |code|)[i] <==>
              !(insts[pos].Mark? && !Referenced(insts, insts[pos].l) && (pos == 0 || !EndsControl(insts[pos - 1])))
  {
    hide Swept, Referenced, EndsControl, UsefulTo, Filter;
    var keep := UsefulTo(code, |code|);
    SweepAt(code, code, keep, i, insts, pos);
    UsefulAt(code, i);
    UsefulPrefix(code, i, |code|);
    PreviousAtCursor(code, keep, i, insts, pos);
    if code[i].Mark? { ReferencedAtCursor(code, i, insts, pos, code[i].l); }
  }

  lemma WithoutUnusedLabelsAre(code: Code)
    ensures WithoutUnusedLabels(code) == Filter(code, UsefulTo(code, |code|))
  {
  }

  method RemoveUnusedLabels(fn: IRFunction) returns (changed: bool)
    modifies fn
    ensures fn.insts == WithoutUnusedLabels(old(fn.insts))
    ensures Unlabelled(old(fn.insts), fn.insts)
    ensures !changed ==> fn.insts == old(fn.insts)
  {
    hide *;
    ghost var code, i := fn.insts, 0;
    ghost var keep := UsefulTo(code, |code|);
    var pos := 0;
    changed := false;
    SweepStart(code, code, keep);
    WithoutUnusedLabelsAre(code);
    while pos < |fn.insts|
      invariant i <= |code| && Swept(code, code, keep, i, fn.insts, pos)
      invariant !changed ==> fn.insts == code
      decreases |fn.insts| - pos
    {
      LabelAtCursor(code, i, fn.insts, pos);
      var inst := fn.insts[pos];
      var unused := false;
      if inst.Mark? && (pos == 0 || !EndsControl(fn.insts[pos - 1])) {
        var referenced := IsReferenced(fn.insts, inst.l);
        unused := !referenced;
      }
      if unused {
        SweepDrop(code, code, keep, i, fn.insts, pos);
        fn.Remove(pos);
        changed := true;
      } else {
        SweepPast(code, code, keep, i, fn.insts, pos);
        pos := pos + 1;
      }
      i := i + 1;
    }
    SweepEnd(code, code, keep, i, fn.insts, pos);
    LabelsLeave(code);
  }

  // ===== the whole pass =====

  ghost function CfgOptimized(code: Code): Code {
    WithoutUnusedLabels(ThreadedFrom(WithoutDeadJumps(BranchesResolved(code)), 0))
  }

  method CfgOptimization(fn: IRFunction) returns (changed: bool)
    modifies fn
    ensures fn.insts == CfgOptimized(old(fn.insts))
    ensures !changed ==> fn.insts == old(fn.insts)
  {
    var changed1 := ResolveBranches(fn);
    var changed2 := RemoveDeadJumps(fn);
    var changed3 := ThreadJumps(fn);
    var changed4 := RemoveUnusedLabels(fn);
    changed := changed1 || changed2 || changed3 || changed4;
  }

  /** The pass keeps results, stores, calls and divergence of every run. */
  lemma CfgOptimizationPreserves(env: Env, code: Code)
    requires Lowered(code)
    ensures Preserves(env, code, CfgOptimized(code)) && Lowered(CfgOptimized(code)) && NoNew(code, CfgOptimized(code))
    ensures Taken(CfgOptimized(code)) == Taken(code)
  {
    var code1 := BranchesResolved(code);
    var code2 := WithoutDeadJumps(code1);
    var code3 := ThreadedFrom(code2, 0);
    hide Lowered, Preserves, BranchesResolved, WithoutDeadJumps, ThreadedFrom, WithoutUnusedLabels, Taken, NoNew;
    BranchesPreserves(env, code);
    DeadJumpsPreserves(env, code1);
    ThreadingPreserves(env, code2, 0);
    LabelsPreserves(env, code3);
    PreservesTransitive(env, code, code1, code2);
    NoNewTransitive(code, code1, code2);
    PreservesTransitive(env, code, code2, code3);
    NoNewTransitive(code, code2, code3);
    PreservesTransitive(env, code, code3, CfgOptimized(code));
    NoNewTransitive(code, code3, CfgOptimized(code));
    BranchesTaken(code);
    DeadJumpsTaken(code1);
  }

  lemma BranchesTaken(code: Code)
    ensures Taken(BranchesResolved(code)) == Taken(code)
  {
    var q := Resolved(code);
    assert forall j :: 0 <= j < |code| ==> (code[j].AddrStack? <==> q[j].AddrStack?)
                                           && (code[j].AddrStack? ==> q[j] == code[j]);
    FilterTaken(q, SometimesTaken(code));
  }

  lemma DeadJumpsTaken(code: Code)
    ensures Taken(WithoutDeadJumps(code)) == Taken(code)
  {
    FilterTaken(code, NotToNext(code));
  }

  // ===== what each step leaves =====

  /** Branches on a constant: those that are taken become jumps, the others are left out. */
  ghost predicate Resolves(code: Code, q: Code) {
    exists mid: Code :: |mid| == |code| && LeftOut(mid, q, FalseBranches(code)) && forall i :: 0 <= i < |code| ==>
      mid[i] == if code[i].JmpIf? && code[i].cond.Imm? && (code[i].nonzero <==> code[i].cond.i != 0)
                then Jmp(code[i].to) else code[i]
  }

  ghost function FalseBranches(code: Code): set<nat> {
    set j: nat | j < |code| && code[j].JmpIf? && code[j].cond.Imm? && (code[j].nonzero <==> code[j].cond.i == 0)
  }

  lemma BranchesResolve(code: Code)
    ensures Resolves(code, BranchesResolved(code))
  {
    hide LeftOut;
    FilterLeaves(Resolved(code), SometimesTaken(code), FalseBranches(code));
  }

  /** The jumps, conditional or not, right before their own label. */
  ghost function JumpsAhead(code: Code): set<nat> {
    set j: nat | j + 1 < |code| && (code[j].Jmp? || code[j].JmpIf?) && code[j + 1] == Mark(code[j].to)
  }

  lemma JumpsLeave(code: Code)
    ensures LeftOut(code, WithoutDeadJumps(code), JumpsAhead(code))
  {
    FilterLeaves(code, NotToNext(code), JumpsAhead(code));
  }

  // Threading.

  /** Where a jump to `l` goes on at once, if the label is followed by a jump elsewhere. */
  function Hop(code: Code, l: Label): Option<Label> {
    var b := Find(code, l);
    if b + 1 < |code| && code[b + 1].Jmp? && code[b + 1].to != l then Some(code[b + 1].to) else None
  }

  /** From `l` it is `n` hops to `t`. */
  predicate Hops(code: Code, l: Label, t: Label, n: nat)
    decreases n
  {
    if n == 0 then l == t else Hop(code, l).Some? && Hops(code, Hop(code, l).value, t, n - 1)
  }

  /** The new target of a jump to `l`: hops lead there; and if they come to an end within 8, it is the end. */
  ghost predicate Aimed(code: Code, l: Label, t: Label) {
    && (exists n: nat :: Hops(code, l, t, n))
    && (forall n: nat, e: Label :: n <= 8 && Hops(code, l, e, n) && Hop(code, e).None? ==> t == e)
  }

  /** Every jump is aimed; nothing else is changed. */
  ghost predicate Threaded(code: Code, q: Code) {
    && |q| == |code|
    && forall i :: 0 <= i < |code| ==> AimedAt(code, code[i], q[i])
  }

  ghost predicate AimedAt(code: Code, inst: Inst, inst': Inst) {
    match inst
    case Jmp(l) => inst'.Jmp? && Aimed(code, l, inst'.to)
    case JmpIf(nonzero, c, l) => inst'.JmpIf? && inst' == JmpIf(nonzero, c, inst'.to) && Aimed(code, l, inst'.to)
    case _ => inst' == inst
  }

  /** Threaded up to `i`. */
  ghost predicate ThreadedTo(code: Code, c: Code, i: nat) {
    && |c| == |code| && i <= |code|
    && (forall j :: 0 <= j < i ==> AimedAt(code, code[j], c[j]))
    && (forall j :: i <= j < |code| ==> c[j] == code[j])
  }

  lemma {:induction false} SameMarks(code: Code, c: Code, l: Label)
    requires |c| == |code| && forall j :: 0 <= j < |code| ==> (code[j] == Mark(l) <==> c[j] == Mark(l))
    ensures Find(c, l) == Find(code, l)
  {
  }

  lemma MarksStand(code: Code, c: Code, i: nat, l: Label)
    requires ThreadedTo(code, c, i)
    ensures Find(c, l) == Find(code, l)
  {
    hide Aimed;
    forall j | 0 <= j < |code| ensures code[j] == Mark(l) <==> c[j] == Mark(l) {
      if j < i { assert AimedAt(code, code[j], c[j]); }
    }
    SameMarks(code, c, l);
  }

  /** What the partly threaded list does behind a label. */
  lemma HopNow(code: Code, c: Code, i: nat, l: Label)
    requires ThreadedTo(code, c, i)
    ensures |c| == |code|
    ensures var b := Find(code, l);
            && Find(c, l) == b
            && (b + 1 < |code| ==> (c[b + 1].Jmp? <==> code[b + 1].Jmp?))
            && (b + 1 < |code| && code[b + 1].Jmp? ==>
                  c[b + 1].to == code[b + 1].to || Aimed(code, code[b + 1].to, c[b + 1].to))
  {
    MarksStand(code, c, i, l);
    hide Aimed;
    var b := Find(code, l);
    if b + 1 < i { assert AimedAt(code, code[b + 1], c[b + 1]); }
  }

  lemma {:induction false} HopsJoin(code: Code, l: Label, m: Label, t: Label, n: nat, k: nat)
    requires Hops(code, l, m, n) && Hops(code, m, t, k)
    ensures Hops(code, l, t, n + k)
    decreases n
  {
    if n > 0 { HopsJoin(code, Hop(code, l).value, m, t, n - 1, k); }
  }

  /** Behind one hop the end is one hop nearer. */
  lemma EndNearer(code: Code, l: Label, e: Label, n: nat)
    requires Hops(code, l, e, n) && Hop(code, e).None? && Hop(code, l).Some?
    ensures n > 0 && Hops(code, Hop(code, l).value, e, n - 1)
  {
  }

  lemma {:induction false} ThreadLeads(code: Code, c: Code, i: nat, l: Label, hops: nat) returns (n: nat)
    requires ThreadedTo(code, c, i)
    ensures Hops(code, l, Thread(c, l, hops), n)
    decreases hops
  {
    hide ThreadedTo;
    HopNow(code, c, i, l);
    n := 0;
    if Threads(c, l, hops) {
      var b := Find(c, l);
      var x, y := code[b + 1].to, c[b + 1].to;
      var m := OneHop(code, l, x, y);
      var k := ThreadLeads(code, c, i, y, hops - 1);
      HopsJoin(code, l, y, Thread(c, y, hops - 1), m, k);
      n := m + k;
    }
  }

  lemma OneHop(code: Code, l: Label, x: Label, y: Label) returns (n: nat)
    requires var b := Find(code, l); b + 1 < |code| && code[b + 1] == Jmp(x)
    requires y != l && (y == x || Aimed(code, x, y))
    ensures Hops(code, l, y, n)
  {
    if x == l { OwnEnd(code, l); }
    if y == x {
      n := 1;
      assert Hops(code, x, x, 0);
    } else {
      var k: nat :| Hops(code, x, y, k);
      n := k + 1;
    }
  }

  lemma OwnEnd(code: Code, l: Label)
    requires var b := Find(code, l); b + 1 < |code| && code[b + 1] == Jmp(l)
    ensures Hop(code, l).None? && Hops(code, l, l, 0)
  {
  }

  lemma {:induction false} ThreadEnds(code: Code, c: Code, i: nat, l: Label, hops: nat, n: nat, e: Label)
    requires ThreadedTo(code, c, i) && n <= hops <= 8 && Hops(code, l, e, n) && Hop(code, e).None?
    ensures Thread(c, l, hops) == e
    decreases hops
  {
    hide ThreadedTo;
    HopNow(code, c, i, l);
    var b := Find(code, l);
    if Hop(code, l).Some? {
      EndNearer(code, l, e, n);
      var x, y := code[b + 1].to, c[b + 1].to;
      var k := Nearer(code, x, y, n - 1, e);
      NotBack(code, l, y, k, e, n);
      ThreadEnds(code, c, i, y, hops - 1, k, e);
    } else {
      StaysAtEnd(code, l, e, n);
      NoHopNow(code, c, l);
    }
  }

  /** Where the jump behind a label goes now, the end is no further. */
  lemma Nearer(code: Code, x: Label, y: Label, n: nat, e: Label) returns (k: nat)
    requires n < 8 && Hops(code, x, e, n) && Hop(code, e).None? && (y == x || Aimed(code, x, y))
    ensures k <= n && Hops(code, y, e, k)
  {
    if y == x {
      k := n;
    } else {
      assert y == e;
      k := 0;
    }
  }

  lemma {:induction false} SameEnd(code: Code, l: Label, e: Label, n: nat, k: nat)
    requires Hops(code, l, e, n) && Hops(code, l, e, k) && Hop(code, e).None?
    ensures n == k
    decreases n
  {
    if n > 0 && k > 0 { SameEnd(code, Hop(code, l).value, e, n - 1, k - 1); }
  }

  /** A label nearer to the end is another one. */
  lemma NotBack(code: Code, l: Label, y: Label, k: nat, e: Label, n: nat)
    requires Hops(code, l, e, n) && Hops(code, y, e, k) && Hop(code, e).None? && k < n
    ensures y != l
  {
    if y == l { SameEnd(code, l, e, n, k); }
  }

  /** A single threading takes all hops there are, but not more than allowed. */
  lemma {:induction false} HopsTaken(code: Code, l: Label, hops: nat) returns (n: nat)
    ensures n <= hops && Hops(code, l, Thread(code, l, hops), n)
    ensures n < hops ==> Hop(code, Thread(code, l, hops)).None?
    decreases hops
  {
    n := 0;
    if Threads(code, l, hops) {
      n := HopsTaken(code, Hop(code, l).value, hops - 1);
      n := n + 1;
    }
  }

  lemma StaysAtEnd(code: Code, l: Label, e: Label, n: nat)
    requires Hops(code, l, e, n) && Hop(code, l).None?
    ensures l == e
  {
  }

  /** Where there was no hop there is none. */
  lemma NoHopNow(code: Code, c: Code, l: Label)
    requires |c| == |code| && Hop(code, l).None?
    requires var b := Find(code, l);
             && Find(c, l) == b
             && (b + 1 < |code| ==> (c[b + 1].Jmp? <==> code[b + 1].Jmp?))
             && (b + 1 < |code| && code[b + 1].Jmp? ==>
                   c[b + 1].to == code[b + 1].to || Aimed(code, code[b + 1].to, c[b + 1].to))
    ensures forall hops :: !Threads(c, l, hops)
  {
    var b := Find(code, l);
    if b + 1 < |code| && code[b + 1].Jmp? { OwnEnd(code, l); }
  }

  lemma ThreadIsAimed(code: Code, c: Code, i: nat, l: Label)
    requires ThreadedTo(code, c, i)
    ensures Aimed(code, l, Thread(c, l, MAX_HOPS))
  {
    hide ThreadedTo;
    var k := ThreadLeads(code, c, i, l, MAX_HOPS);
    forall n: nat, e: Label | n <= 8 && Hops(code, l, e, n) && Hop(code, e).None?
      ensures Thread(c, l, MAX_HOPS) == e
    {
      ThreadEnds(code, c, i, l, MAX_HOPS, n, e);
    }
  }

  lemma ThreadedStep(code: Code, c: Code, i: nat)
    requires i < |code| && ThreadedTo(code, c, i)
    ensures ThreadedTo(code, ThreadedAt(c, i), i + 1)
  {
    hide Aimed, Thread;
    if IsJump(c[i]) { ThreadIsAimed(code, c, i, c[i].to); }
  }

  lemma {:induction false} ThreadedOn(code: Code, c: Code, i: nat)
    requires i <= |code| && ThreadedTo(code, c, i)
    ensures Threaded(code, ThreadedFrom(c, i))
    decreases |code| - i
  {
    hide AimedAt, ThreadedAt;
    if i < |code| {
      ThreadedStep(code, c, i);
      ThreadedOn(code, ThreadedAt(c, i), i + 1);
    }
  }

  lemma ThreadedAll(code: Code)
    ensures Threaded(code, ThreadedFrom(code, 0))
  {
    ThreadedOn(code, code, 0);
  }

  // Labels.

  /** Of the instructions before `j` that stay, the last ends control. */
  ghost predicate BehindEnd(code: Code, gone: set<nat>, j: nat) {
    exists h: nat :: h < j <= |code| && h !in gone && (code[h].Jmp? || code[h].Ret?)
                     && forall m: nat :: h < m < j ==> m in gone
  }

  ghost predicate JumpedTo(code: Code, l: Label) {
    exists i :: 0 <= i < |code| && (code[i].Jmp? || code[i].JmpIf?) && code[i].to == l
  }

  /** Exactly the labels go that no jump names and that control can come to from before. */
  ghost predicate Unlabelled(code: Code, q: Code) {
    exists gone: set<nat> :: LeftOut(code, q, gone) && forall j: nat :: j < |code| ==>
      (j in gone <==> code[j].Mark? && !JumpedTo(code, code[j].l) && !BehindEnd(code, gone, j))
  }

  ghost function UselessIn(code: Code): set<nat> {
    set j: nat | j < |code| && !UsefulTo(code, |code|)[j]
  }

  lemma LastKeptIs(code: Code, keep: seq<bool>, gone: set<nat>, i: nat)
    requires i <= |keep| == |code| && forall j: nat :: j < |code| ==> (j in gone <==> !keep[j])
    ensures var h := LastKept(keep[..i]); BehindEnd(code, gone, i) <==> h >= 0 && EndsControl(code[h])
  {
    var h := LastKept(keep[..i]);
    if h >= 0 {
      assert keep[..i][h];
      forall m: nat | h < m < i ensures m in gone { assert !keep[..i][m]; }
    } else {
      forall m: nat | m < i ensures m in gone { assert !keep[..i][m]; }
    }
    if BehindEnd(code, gone, i) {
      var g: nat :| g < i <= |code| && g !in gone && (code[g].Jmp? || code[g].Ret?)
                    && forall m: nat :: g < m < i ==> m in gone;
      assert keep[..i][g];
    }
  }

  lemma LabelsLeave(code: Code)
    ensures Unlabelled(code, WithoutUnusedLabels(code))
  {
    var keep, gone := UsefulTo(code, |code|), UselessIn(code);
    FilterLeaves(code, keep, gone);
    hide LastKept, LeftOut, BehindEnd;
    forall j: nat | j < |code|
      ensures j in gone <==> code[j].Mark? && !JumpedTo(code, code[j].l) && !BehindEnd(code, gone, j)
    {
      UsefulAt(code, j);
      UsefulPrefix(code, j, |code|);
      LastKeptIs(code, keep, gone, j);
      if code[j].Mark? { assert JumpedTo(code, code[j].l) <==> Referenced(code, code[j].l); }
    }
  }
}
