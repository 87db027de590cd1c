/** Control-flow simplification (`opt_cfg_simplify`): branch inversion, branches with one destination,
    adjacent labels, and instructions behind a jump or return, in that order. */
module CfgSimplify {
  import opened Word64
  import opened IR
  import opened Simulation
  import opened LoweredForm
  import opened Deletion
  import opened Editing
  import opened Function

  // ===== 1. a conditional branch around an unconditional jump =====

  predicate BranchesAround(a: Inst, b: Inst, c: Inst) {
    a.JmpIf? && b.Jmp? && c == Mark(a.to)
  }

  predicate InvertibleAt(code: Code, i: nat) {
    i + 2 < |code| && BranchesAround(code[i], code[i + 1], code[i + 2])
  }

  function Invert(a: Inst, b: Inst): Inst
    requires a.JmpIf? && b.Jmp?
  {
    JmpIf(!a.nonzero, a.cond, b.to)
  }

  ghost function Inverted(code: Code): (q: Code)
    ensures |q| == |code|
  {
    seq(|code|, i requires 0 <= i < |code| => if InvertibleAt(code, i) then Invert(code[i], code[i + 1]) else code[i])
  }

  ghost function NotSkipped(code: Code): (keep: seq<bool>)
    ensures |keep| == |code|
  {
    seq(|code|, i requires 0 <= i < |code| => !(i > 0 && InvertibleAt(code, i - 1)))
  }

  ghost function BranchesInverted(code: Code): Code {
    Filter(Inverted(code), NotSkipped(code))
  }

  lemma InvertAtCursor(code: Code, i: nat, insts: Code, pos: nat)
    requires Swept(code, Inverted(code), NotSkipped(code), i, insts, pos) && pos < |insts|
    ensures i < |code| && insts[pos] == code[i]
    ensures InvertibleAt(code, i) <==> InvertibleAt(insts, pos)
    ensures InvertibleAt(code, i) ==> insts[pos + 1] == code[i + 1]
  {
    var q, keep := Inverted(code), NotSkipped(code);
    SweepAt(code, q, keep, i, insts, pos);
    SweepAhead(code, q, keep, i, insts, pos, 1);
    SweepAhead(code, q, keep, i, insts, pos, 2);
  }

  lemma InvertSweep(code: Code, i: nat, insts: Code, pos: nat)
    requires Swept(code, Inverted(code), NotSkipped(code), i, insts, pos) && pos < |insts|
    requires InvertibleAt(insts, pos) && i < |code| && NotSkipped(code)[i]
    ensures var insts' := insts[pos := Invert(insts[pos], insts[pos + 1])];
            Swept(code, Inverted(code), NotSkipped(code), i + 2, insts'[..pos + 1] + insts'[pos + 2..], pos + 1)
    ensures i + 2 < |code| && NotSkipped(code)[i + 2]
  {
    var q, keep := Inverted(code), NotSkipped(code);
    InvertAtCursor(code, i, insts, pos);
    SweepKeep(code, q, keep, i, insts, pos);
    SweepDrop(code, q, keep, i + 1, insts[pos := q[i]], pos + 1);
  }

  lemma NoInvertSweep(code: Code, i: nat, insts: Code, pos: nat)
    requires Swept(code, Inverted(code), NotSkipped(code), i, insts, pos) && pos < |insts|
    requires !InvertibleAt(insts, pos) && i < |code| && NotSkipped(code)[i]
    ensures Swept(code, Inverted(code), NotSkipped(code), i + 1, insts, pos + 1)
    ensures i + 1 < |code| ==> NotSkipped(code)[i + 1]
  {
    InvertAtCursor(code, i, insts, pos);
    SweepPast(code, Inverted(code), NotSkipped(code), i, insts, pos);
  }

  method InvertBranches(fn: IRFunction) returns (changed: bool)
    modifies fn
    ensures fn.insts == BranchesInverted(old(fn.insts))
    ensures Inverts(old(fn.insts), fn.insts)
    ensures !changed ==> fn.insts == old(fn.insts)
  {
    ghost var code, i := fn.insts, 0;
    ghost var q, keep := Inverted(code), NotSkipped(code);
    var pos := 0;
    changed := false;
    SweepStart(code, q, keep);
    hide Swept, Inverted, Filter, NotSkipped, Inverts, LeftOut, Kept;
    SkipsNotFirst(code);
    while pos < |fn.insts|
      invariant i <= |code| && Swept(code, q, keep, i, fn.insts, pos) && (i < |code| ==> keep[i])
      invariant !changed ==> fn.insts == code
      decreases |fn.insts| - pos
    {
      InvertAtCursor(code, i, fn.insts, pos);
      if InvertibleAt(fn.insts, pos) {
        InvertSweep(code, i, fn.insts, pos);
        fn.Replace(pos, Invert(fn.insts[pos], fn.insts[pos + 1]));
        fn.Remove(pos + 1);
        changed := true;
        i := i + 2;
      } else {
        NoInvertSweep(code, i, fn.insts, pos);
        i := i + 1;
      }
      pos := pos + 1;
    }
    SweepEnd(code, q, keep, i, fn.insts, pos);
    BranchesInvert(code);
  }

  lemma SkipsNotFirst(code: Code)
    ensures |code| > 0 ==> NotSkipped(code)[0]
  {
  }

  lemma InvertedFind(code: Code, l: Label)
    ensures Find(Inverted(code), l) == Find(code, l)
  {
    SameMarksSameFind(code, Inverted(code), l);
  }

  lemma MarksNotSkipped(code: Code, b: nat)
    requires b < |code| && code[b].Mark?
    ensures NotSkipped(code)[b] && (b + 1 < |code| ==> NotSkipped(code)[b + 1])
  {
  }

  /** Where a jump to `l` lands in the shortened list. */
  lemma InvertedLanding(code: Code, l: Label)
    requires UniqueMarks(code) && Find(code, l) < |code|
    ensures Find(BranchesInverted(code), l) + 1 == Rank(NotSkipped(code), Find(code, l) + 1)
    ensures Find(BranchesInverted(code), l) == Rank(NotSkipped(code), Find(code, l)) < |BranchesInverted(code)|
    ensures Find(code, l) + 1 < |code| ==> NotSkipped(code)[Find(code, l) + 1]
  {
    var q, keep := Inverted(code), NotSkipped(code);
    InvertedFind(code, l);
    MarksNotSkipped(code, Find(code, l));
    InvertedUnique(code);
    hide Inverted, NotSkipped, UniqueMarks;
    FindInFilter(q, keep, l);
    FilterAt(q, keep, Find(code, l));
  }

  lemma InvertedMark(code: Code, i: nat)
    requires i < |code| && Inverted(code)[i].Mark?
    ensures Inverted(code)[i] == code[i]
  {
  }

  lemma InvertedUnique(code: Code)
    requires UniqueMarks(code)
    ensures UniqueMarks(Inverted(code))
  {
    hide Inverted;
    var q := Inverted(code);
    forall i: nat, j: nat | i < |q| && j < |q| && q[i].Mark? && q[i] == q[j] ensures i == j {
      InvertedMark(code, i);
      InvertedMark(code, j);
    }
  }

  ghost function OutsideSkipped(code: Code): Relation {
    (s: State, t: State) =>
      && s.Run? && t.Run? && s.pc <= |code| && t.pc == Rank(NotSkipped(code), s.pc) && s.data == t.data
      && (s.pc < |code| ==> NotSkipped(code)[s.pc])
  }

  lemma BranchOutcome(env: Env, inst: Inst, d: Data)
    requires IsJump(inst)
    ensures var o := Exec(env, inst, d); o.Stuck? || o == Next(d) || o == Goto(inst.to)
  {
  }

  lemma TwoSteps(env: Env, p: Code, s: State)
    ensures Steps(env, p, s, 2) == Step(env, p, Step(env, p, s))
  {
    StepsAdd(env, p, s, 1, 1);
    OneStep(env, p, s);
    OneStep(env, p, Step(env, p, s));
  }

  lemma BranchStep(env: Env, q: Code, t: State)
    requires t.Run? && t.pc < |q| && q[t.pc].JmpIf?
    ensures var w := Val(t.data.regs, q[t.pc].cond);
            Step(env, q, t) ==
              if w.None? then Trap
              else if (w.value != 0) == q[t.pc].nonzero then Run(Find(q, q[t.pc].to) + 1, t.data)
              else Run(t.pc + 1, t.data)
  {
  }

  lemma OutsideSkippedIs(code: Code, s: State, t: State)
    ensures OutsideSkipped(code)(s, t) <==>
      && s.Run? && t.Run? && s.pc <= |code| && t.pc == Rank(NotSkipped(code), s.pc) && s.data == t.data
      && (s.pc < |code| ==> NotSkipped(code)[s.pc])
  {
  }

  lemma InvertKeeps(code: Code, i: nat)
    requires UniqueMarks(code) && InvertibleAt(code, i)
    ensures i + 2 < |code| && BranchesAround(code[i], code[i + 1], code[i + 2])
    ensures Inverted(code)[i] == Invert(code[i], code[i + 1]) && Inverted(code)[i + 2] == code[i + 2]
    ensures !NotSkipped(code)[i + 1] && NotSkipped(code)[i + 2] && (i + 3 < |code| ==> NotSkipped(code)[i + 3])
    ensures Find(code, code[i].to) == i + 2
  {
    MarksNotSkipped(code, i + 2);
    FindUnique(code, code[i].to, i + 2);
  }

  lemma InvertFacts(code: Code, i: nat)
    requires UniqueMarks(code) && InvertibleAt(code, i) && NotSkipped(code)[i]
    ensures var p, keep, r := BranchesInverted(code), NotSkipped(code), Rank(NotSkipped(code), i);
            && r + 1 < |p| && p[r] == Invert(code[i], code[i + 1]) && p[r + 1] == code[i + 2]
            && Rank(keep, i + 3) == r + 2 && (i + 3 < |code| ==> keep[i + 3])
            && Find(code, code[i].to) == i + 2
  {
    InvertKeeps(code, i);
    hide NotSkipped, Inverted, UniqueMarks, InvertibleAt, Kept;
    var keep := NotSkipped(code);
    FilterAt(Inverted(code), keep, i);
    RankNext(keep, i);
    RankNext(keep, i + 1);
    RankNext(keep, i + 2);
    FilterAt(Inverted(code), keep, i + 2);
  }

  /** The branch is taken: one step here, and there the inverted branch falls through to the mark. */
  lemma InvertTakenBranch(env: Env, code: Code, p: Code, r: Relation, s: State, t: State)
    requires s.Run? && t.Run? && s.pc + 2 < |code| && t.pc + 1 < |p| && s.data == t.data
    requires BranchesAround(code[s.pc], code[s.pc + 1], code[s.pc + 2])
    requires p[t.pc] == Invert(code[s.pc], code[s.pc + 1]) && p[t.pc + 1].Mark?
    requires Find(code, code[s.pc].to) == s.pc + 2
    requires Exec(env, code[s.pc], s.data).Goto?
    requires r(Run(s.pc + 3, s.data), Run(t.pc + 2, t.data))
    ensures Advances(env, code, p, r, s, t)
  {
    hide Step;
    BranchStep(env, code, s);
    BranchStep(env, p, t);
    OneStep(env, code, s);
    TwoSteps(env, p, t);
    ControlStep(env, p, Run(t.pc + 1, t.data));
    assert MatchedBy(env, code, p, r, s, t, 1, 2);
  }

  /** The branch falls through to the jump: two steps here, and there the inverted branch is taken. */
  lemma InvertFallThrough(env: Env, code: Code, p: Code, r: Relation, s: State, t: State)
    requires s.Run? && t.Run? && s.pc + 2 < |code| && t.pc < |p| && s.data == t.data
    requires BranchesAround(code[s.pc], code[s.pc + 1], code[s.pc + 2])
    requires p[t.pc] == Invert(code[s.pc], code[s.pc + 1])
    requires Exec(env, code[s.pc], s.data).Next?
    requires r(Run(Find(code, code[s.pc + 1].to) + 1, s.data), Run(Find(p, code[s.pc + 1].to) + 1, t.data))
    ensures Advances(env, code, p, r, s, t)
  {
    FallThroughSteps(env, code, s);
    InvertedStep(env, p, t, code[s.pc], code[s.pc + 1]);
    hide Step, Steps, Exec, Find;
    assert MatchedBy(env, code, p, r, s, t, 2, 1);
  }

  lemma FallThroughSteps(env: Env, code: Code, s: State)
    requires s.Run? && s.pc + 1 < |code| && code[s.pc].JmpIf? && code[s.pc + 1].Jmp?
    requires Exec(env, code[s.pc], s.data).Next?
    ensures Steps(env, code, s, 2) == Run(Find(code, code[s.pc + 1].to) + 1, s.data)
  {
    hide Step, Find;
    BranchStep(env, code, s);
    TwoSteps(env, code, s);
    ControlStep(env, code, Run(s.pc + 1, s.data));
  }

  lemma InvertedStep(env: Env, p: Code, t: State, a: Inst, b: Inst)
    requires t.Run? && t.pc < |p| && a.JmpIf? && b.Jmp? && p[t.pc] == Invert(a, b) && Exec(env, a, t.data).Next?
    ensures Steps(env, p, t, 1) == Run(Find(p, b.to) + 1, t.data)
  {
    hide Step, Find;
    BranchStep(env, p, t);
    OneStep(env, p, t);
  }

  /** What the two cases need to know about where the sides stand and where they go. */
  lemma InvertReady(code: Code, s: State, t: State)
    requires UniqueMarks(code) && TargetsExist(code) && OutsideSkipped(code)(s, t) && InvertibleAt(code, s.pc)
    ensures s.Run? && t.Run? && s.pc + 2 < |code| && t.pc + 1 < |BranchesInverted(code)| && s.data == t.data
    ensures BranchesAround(code[s.pc], code[s.pc + 1], code[s.pc + 2])
    ensures BranchesInverted(code)[t.pc] == Invert(code[s.pc], code[s.pc + 1]) && BranchesInverted(code)[t.pc + 1].Mark?
    ensures Find(code, code[s.pc].to) == s.pc + 2
    ensures OutsideSkipped(code)(Run(s.pc + 3, s.data), Run(t.pc + 2, t.data))
    ensures var l := code[s.pc + 1].to;
            OutsideSkipped(code)(Run(Find(code, l) + 1, s.data), Run(Find(BranchesInverted(code), l) + 1, t.data))
  {
    hide OutsideSkipped, UniqueMarks, BranchesInverted, NotSkipped, Inverted;
    OutsideSkippedIs(code, s, t);
    var p, l := BranchesInverted(code), code[s.pc + 1].to;
    InvertFacts(code, s.pc);
    InvertKeeps(code, s.pc);
    InvertedLanding(code, l);
    OutsideSkippedIs(code, Run(s.pc + 3, s.data), Run(t.pc + 2, t.data));
    OutsideSkippedIs(code, Run(Find(code, l) + 1, s.data), Run(Find(p, l) + 1, t.data));
  }

  lemma InvertTaken(env: Env, code: Code, s: State, t: State)
    requires UniqueMarks(code) && TargetsExist(code) && OutsideSkipped(code)(s, t)
    requires InvertibleAt(code, s.pc)
    ensures Advances(env, code, BranchesInverted(code), OutsideSkipped(code), s, t)
  {
    hide *;
    InvertReady(code, s, t);
    BranchOutcomeAt(env, code, s);
    var p, r := BranchesInverted(code), OutsideSkipped(code);
    if Exec(env, code[s.pc], s.data).Next? {
      InvertFallThrough(env, code, p, r, s, t);
    } else if Exec(env, code[s.pc], s.data).Goto? {
      InvertTakenBranch(env, code, p, r, s, t);
    } else {
      BranchStuck(env, code, p, r, s, t);
    }
  }

  lemma BranchOutcomeAt(env: Env, code: Code, s: State)
    requires s.Run? && s.pc + 2 < |code| && BranchesAround(code[s.pc], code[s.pc + 1], code[s.pc + 2])
    ensures var o := Exec(env, code[s.pc], s.data); o.Stuck? || o.Next? || o.Goto?
  {
  }

  lemma BranchStuck(env: Env, code: Code, p: Code, r: Relation, s: State, t: State)
    requires s.Run? && s.pc < |code| && Exec(env, code[s.pc], s.data).Stuck?
    ensures Advances(env, code, p, r, s, t)
  {
    OneStep(env, code, s);
    assert MatchedBy(env, code, p, r, s, t, 1, 0);
  }

  lemma InvertedOther(code: Code, i: nat)
    requires i < |code| && !InvertibleAt(code, i)
    ensures Inverted(code)[i] == code[i] && (i + 1 < |code| ==> NotSkipped(code)[i + 1])
  {
  }

  lemma OtherAt(code: Code, i: nat)
    requires i < |code| && !InvertibleAt(code, i) && NotSkipped(code)[i]
    ensures var p, keep, r := BranchesInverted(code), NotSkipped(code), Rank(NotSkipped(code), i);
            && r < |p| && p[r] == code[i] && Rank(keep, i + 1) == r + 1 && (i + 1 < |code| ==> keep[i + 1])
  {
    var keep := NotSkipped(code);
    InvertedOther(code, i);
    hide NotSkipped, Inverted, InvertibleAt, Kept;
    FilterAt(Inverted(code), keep, i);
    RankNext(keep, i);
  }

  /** Any other instruction is the same on both sides, and so is where control goes from it. */
  lemma OtherReady(code: Code, s: State, t: State, d: Data)
    requires UniqueMarks(code) && TargetsExist(code) && OutsideSkipped(code)(s, t)
    requires s.Run? && s.pc < |code| && !InvertibleAt(code, s.pc)
    ensures var p := BranchesInverted(code);
            && t.Run? && t.data == s.data && t.pc < |p| && p[t.pc] == code[s.pc]
            && OutsideSkipped(code)(Run(s.pc + 1, d), Run(t.pc + 1, d))
            && (IsJump(code[s.pc]) ==>
                  OutsideSkipped(code)(Run(Find(code, code[s.pc].to) + 1, s.data),
                                       Run(Find(p, code[s.pc].to) + 1, s.data)))
  {
    hide OutsideSkipped, UniqueMarks, BranchesInverted, NotSkipped, InvertibleAt, Find, Kept;
    OutsideSkippedIs(code, s, t);
    OtherAt(code, s.pc);
    OutsideSkippedIs(code, Run(s.pc + 1, d), Run(t.pc + 1, d));
    if IsJump(code[s.pc]) {
      var l := code[s.pc].to;
      InvertedLanding(code, l);
      OutsideSkippedIs(code, Run(Find(code, l) + 1, s.data), Run(Find(BranchesInverted(code), l) + 1, s.data));
    }
  }

  /** The same instruction on both sides keeps what relates them if all ways on do. */
  lemma SameInstruction(env: Env, code: Code, p: Code, r: Relation, s: State, t: State)
    requires s.Run? && t.Run? && s.data == t.data && s.pc < |code| && t.pc < |p| && p[t.pc] == code[s.pc]
    requires var o := Exec(env, code[s.pc], s.data); o.Next? ==> r(Run(s.pc + 1, o.data), Run(t.pc + 1, o.data))
    requires IsJump(code[s.pc]) ==>
               r(Run(Find(code, code[s.pc].to) + 1, s.data), Run(Find(p, code[s.pc].to) + 1, s.data))
    ensures Advances(env, code, p, r, s, t)
  {
    OneStep(env, code, s);
    OneStep(env, p, t);
    if Exec(env, code[s.pc], s.data).Goto? { GotoIsJump(env, code[s.pc], s.data); }
    hide Exec, Find, Steps;
    assert MatchedBy(env, code, p, r, s, t, 1, 1);
  }

  lemma BothRunOff(env: Env, code: Code, p: Code, r: Relation, s: State, t: State)
    requires s.Run? && s.pc >= |code|
    ensures Advances(env, code, p, r, s, t)
  {
    OneStep(env, code, s);
    hide Steps;
    assert MatchedBy(env, code, p, r, s, t, 1, 1);
  }

  lemma InvertOther(env: Env, code: Code, s: State, t: State)
    requires UniqueMarks(code) && TargetsExist(code) && OutsideSkipped(code)(s, t)
    requires !InvertibleAt(code, s.pc)
    ensures Advances(env, code, BranchesInverted(code), OutsideSkipped(code), s, t)
  {
    hide *;
    OutsideSkippedIs(code, s, t);
    var p, r := BranchesInverted(code), OutsideSkipped(code);
    if s.pc < |code| {
      var o := Exec(env, code[s.pc], s.data);
      OtherReady(code, s, t, if o.Next? then o.data else s.data);
      SameInstruction(env, code, p, r, s, t);
    } else {
      BothRunOff(env, code, p, r, s, t);
    }
  }

  lemma InversionPreserves(env: Env, code: Code)
    requires UniqueMarks(code) && TargetsExist(code)
    ensures Preserves(env, code, BranchesInverted(code))
  {
    hide UniqueMarks, TargetsExist, BranchesInverted;
    var r := OutsideSkipped(code);
    forall s: State, t: State | s.Run? && t.Run? && s.data.trace == t.data.trace && r(s, t)
      ensures Advances(env, code, BranchesInverted(code), r, s, t)
    {
      if InvertibleAt(code, s.pc) { InvertTaken(env, code, s, t); } else { InvertOther(env, code, s, t); }
    }
    forall slots: Slots ensures r(Start(slots), Start(slots)) {
      SkipsNotFirst(code);
    }
    PreservesBySimulation(env, code, BranchesInverted(code), r);
  }

  lemma InvertImplied(code: Code, i: nat)
    requires InvertibleAt(code, i)
    ensures Implied(code, i, Find(code, code[i + 1].to))
  {
    var y := Find(code, code[i + 1].to);
    forall j, l, k | Arms(code, j, l) && Def(code[j]).Some? && l < k < |code| && !code[k].Mark? && Shut(code, j, l, k)
                 && l < y < k
      ensures j < i <= k
    {
      assert j < i + 1 <= k;
      assert j != i;
    }
  }

  lemma InversionJumps(code: Code, m: nat)
    requires UniqueMarks(code) && TargetsExist(code) && m < |BranchesInverted(code)|
        && IsJump(BranchesInverted(code)[m])
    ensures var p, e := BranchesInverted(code), Kept(NotSkipped(code), |code|);
            Find(p, p[m].to) < |p| && Implied(code, e[m], e[Find(p, p[m].to)])
  {
    hide UniqueMarks;
    var p, e := BranchesInverted(code), Kept(NotSkipped(code), |code|);
    var i := e[m];
    InvertedLanding(code, p[m].to);
    KeptAt(NotSkipped(code), Find(code, p[m].to));
    if InvertibleAt(code, i) { InvertImplied(code, i); } else { OwnJumpsImplied(code, i); }
  }

  lemma InvertShape(code: Code, i: nat)
    requires i < |code|
    ensures var inst, inst' := code[i], Inverted(code)[i];
            && Def(inst') == Def(inst) && Uses(inst') == Uses(inst)
            && (inst'.Mark? <==> inst.Mark?) && (inst.Mark? ==> inst' == inst)
            && Reshapes(inst, inst')
            && (inst'.AddrStack? <==> inst.AddrStack?) && (inst.AddrStack? ==> inst' == inst)
  {
  }

  lemma InversionEmbeds(code: Code)
    requires UsesFollowDefinitions(code)
    ensures Embeds(code, BranchesInverted(code), Kept(NotSkipped(code), |code|))
  {
    hide UseOK, Inverted, NotSkipped, InvertibleAt;
    var p, e := BranchesInverted(code), Kept(NotSkipped(code), |code|);
    forall m | 0 <= m < |p| ensures e[m] < |code| && p[m] == Inverted(code)[e[m]] {
      InvertShape(code, e[m]);
    }
    assert forall i :: 0 <= i < |code| ==> Uses(Inverted(code)[i]) == Uses(code[i]) by {
      forall i | 0 <= i < |code| ensures Uses(Inverted(code)[i]) == Uses(code[i]) { InvertShape(code, i); }
    }
    forall m | 0 <= m < |p|
      ensures (p[m].Mark? <==> code[e[m]].Mark?) && (p[m].Mark? ==> p[m] == code[e[m]])
      ensures Reshapes(code[e[m]], p[m])
    {
      InvertShape(code, e[m]);
    }
  }

  lemma InversionKeepsConstants(code: Code)
    ensures ArmsSurvive(code, BranchesInverted(code), Kept(NotSkipped(code), |code|))
  {
    var keep := NotSkipped(code);
    forall j | 0 <= j < |code| && code[j].Const? ensures j in Kept(keep, |code|) {
      KeptIn(keep, j);
    }
    ArmsKept(code, BranchesInverted(code), Kept(keep, |code|));
  }

  lemma InversionKeepsForm(code: Code)
    requires Lowered(code)
    ensures Lowered(BranchesInverted(code)) && NoNew(code, BranchesInverted(code))
        && Taken(BranchesInverted(code)) == Taken(code)
  {
    var p, e := BranchesInverted(code), Kept(NotSkipped(code), |code|);
    InversionEmbeds(code);
    forall m | 0 <= m < |p| && IsJump(p[m]) ensures Find(p, p[m].to) < |p| && Implied(code, e[m], e[Find(p, p[m].to)]) {
      InversionJumps(code, m);
    }
    InversionTaken(code);
    InversionKeepsConstants(code);
    hide Implied, Embeds, BranchesInverted, UsesFollowDefinitions, ArmsSurvive, NoNew;
    EmbeddingKeepsForm(code, p, e);
  }

  lemma InversionTaken(code: Code)
    ensures Taken(BranchesInverted(code)) == Taken(code)
  {
    hide Inverted, InvertibleAt, NotSkipped;
    var q := Inverted(code);
    forall j | 0 <= j < |code| ensures (code[j].AddrStack? <==> q[j].AddrStack?)
        && (code[j].AddrStack? ==> q[j] == code[j]) {
      InvertShape(code, j);
    }
    AddressesNotSkipped(code);
    FilterTaken(q, NotSkipped(code));
  }

  lemma AddressesNotSkipped(code: Code)
    ensures forall i :: 0 <= i < |code| && code[i].AddrStack? ==> NotSkipped(code)[i]
  {
  }

  // ===== 2. both ways of a branch lead to the same mark =====

  predicate SameDestination(a: Inst, b: Inst) {
    a.JmpIf? && b.Jmp? && a.to == b.to
  }

  ghost function RealChoices(code: Code): (keep: seq<bool>)
    ensures |keep| == |code|
  {
    seq(|code|, i requires 0 <= i < |code| => !(i + 1 < |code| && SameDestination(code[i], code[i + 1])))
  }

  ghost function WithoutFalseChoices(code: Code): Code {
    Filter(code, RealChoices(code))
  }

  lemma ChoiceAtCursor(code: Code, i: nat, insts: Code, pos: nat)
    requires Swept(code, code, RealChoices(code), i, insts, pos) && pos < |insts|
    ensures i < |code|
    ensures RealChoices(code)[i] <==> !(pos + 1 < |insts| && SameDestination(insts[pos], insts[pos + 1]))
  {
    SweepAt(code, code, RealChoices(code), i, insts, pos);
    SweepAhead(code, code, RealChoices(code), i, insts, pos, 1);
  }

  lemma RealChoicesAre(code: Code)
    ensures WithoutFalseChoices(code) == Filter(code, RealChoices(code))
  {
  }

  method FoldSameDestinations(fn: IRFunction) returns (changed: bool)
    modifies fn
    ensures fn.insts == WithoutFalseChoices(old(fn.insts))
    ensures LeftOut(old(fn.insts), fn.insts, EqualBranches(old(fn.insts)))
    ensures !changed ==> fn.insts == old(fn.insts)
  {
    hide *;
    ghost var code, i := fn.insts, 0;
    ghost var keep := RealChoices(code);
    var pos := 0;
    changed := false;
    SweepStart(code, code, keep);
    RealChoicesAre(code);
    while pos < |fn.insts|
      invariant i <= |code| && Swept(code, code, keep, i, fn.insts, pos)
      invariant !changed ==> fn.insts == code
      decreases |fn.insts| - pos
    {
      ChoiceAtCursor(code, i, fn.insts, pos);
      if pos + 1 < |fn.insts| && SameDestination(fn.insts[pos], fn.insts[pos + 1]) {
        SweepDrop(code, code, keep, i, fn.insts, pos);
        fn.Remove(pos);
        changed := true;
      } else {
        SweepPast(code, code, keep, i, fn.insts, pos);
        pos := pos + 1;
      }
      i := i + 1;
    }
    SweepEnd(code, code, keep, i, fn.insts, pos);
    EqualBranchesLeave(code);
  }

  lemma ChoicesKeep(code: Code)
    requires TargetsExist(code)
    ensures KeepsTargets(code, RealChoices(code)) && LosesConstants(code, RealChoices(code))
    ensures forall i :: 0 <= i < |code| && code[i].AddrStack? ==> RealChoices(code)[i]
  {
    KeepsConstants(code, RealChoices(code));
    hide LosesConstants;
  }

  lemma FalseChoicesPreserves(env: Env, code: Code)
    requires Lowered(code)
    ensures Preserves(env, code, WithoutFalseChoices(code)) && Lowered(WithoutFalseChoices(code))
        && NoNew(code, WithoutFalseChoices(code))
    ensures Taken(WithoutFalseChoices(code)) == Taken(code)
  {
    hide *;
    LoweredMarks(code);
    ChoicesKeep(code);
    var keep, rel := RealChoices(code), SameDataWhere(Everywhere());
    forall i: nat, d: Data | i < |code| && !keep[i]
      ensures Unnoticed(env, code, rel, i, d, d) || Absorbed(env, code, keep, rel, i, d, d)
    {
      BranchAbsorbed(env, code, i, d);
    }
    RealChoicesAre(code);
    NoOpDeletionPreserves(env, code, keep);
    FilterKeepsForm(code, keep);
    FilterTaken(code, keep);
  }

  lemma BranchAbsorbed(env: Env, code: Code, i: nat, d: Data)
    requires i < |code| && !RealChoices(code)[i]
    ensures var rel := SameDataWhere(Everywhere());
            Unnoticed(env, code, rel, i, d, d) || Absorbed(env, code, RealChoices(code), rel, i, d, d)
  {
    BranchOutcome(env, code[i], d);
    hide Exec;
  }

  // ===== 3. adjacent labels =====

  function Redirect(inst: Inst, from: Label, to: Label): Inst {
    match inst
    case Jmp(l) => Jmp(if l == from then to else l)
    case JmpIf(nonzero, c, l) => JmpIf(nonzero, c, if l == from then to else l)
    case _ => inst
  }

  function Redirected(code: Code, from: Label, to: Label): (q: Code)
    ensures |q| == |code|
    ensures forall i :: 0 <= i < |code| ==> q[i] == Redirect(code[i], from, to)
  {
    seq(|code|, i requires 0 <= i < |code| => Redirect(code[i], from, to))
  }

  predicate MergeableAt(code: Code, i: nat) {
    i + 1 < |code| && code[i].Mark? && code[i + 1].Mark? && code[i] != code[i + 1]
  }

  function AllBut(n: nat, k: nat): seq<bool> {
    seq(n, i => i != k)
  }

  function MergedAt(code: Code, i: nat): Code
    requires MergeableAt(code, i)
  {
    var q := Redirected(code, code[i + 1].l, code[i].l);
    q[..i + 1] + q[i + 2..]
  }

  /** The first label of every group of adjacent ones stands for the whole group. */
  ghost function MergedFrom(code: Code, i: nat): Code
    decreases |code| - i
  {
    if i >= |code| then code
    else if MergeableAt(code, i) then MergedFrom(MergedAt(code, i), i)
    else MergedFrom(code, i + 1)
  }

  method RedirectJumps(fn: IRFunction, from: Label, to: Label)
    modifies fn
    ensures fn.insts == Redirected(old(fn.insts), from, to)
  {
    ghost var code := fn.insts;
    var n := |fn.insts|;
    for i := 0 to n
      invariant |fn.insts| == n
      invariant forall j :: 0 <= j < i ==> fn.insts[j] == Redirect(code[j], from, to)
      invariant forall j :: i <= j < n ==> fn.insts[j] == code[j]
    {
      fn.Replace(i, Redirect(fn.insts[i], from, to));
    }
  }

  method MergeLabels(fn: IRFunction) returns (changed: bool)
    modifies fn
    ensures fn.insts == MergedFrom(old(fn.insts), 0)
    ensures NoAdjacentLabels(fn.insts)
    ensures !changed ==> fn.insts == old(fn.insts)
  {
    ghost var code := fn.insts;
    var i := 0;
    changed := false;
    while i < |fn.insts|
      invariant i <= |fn.insts| && MergedFrom(fn.insts, i) == MergedFrom(code, 0)
      invariant !changed ==> fn.insts == code
      decreases |fn.insts| - i
    {
      if MergeableAt(fn.insts, i) {
        ghost var before := fn.insts;
        RedirectJumps(fn, fn.insts[i + 1].l, fn.insts[i].l);
        fn.Remove(i + 1);
        assert fn.insts == MergedAt(before, i);
        changed := true;
      } else {
        i := i + 1;
      }
    }
    hide NoAdjacentLabels, MergedFrom;
    MergedApart(code, 0);
  }

  lemma RedirectedFind(code: Code, from: Label, to: Label, l: Label)
    ensures Find(Redirected(code, from, to), l) == Find(code, l)
  {
    SameMarksSameFind(code, Redirected(code, from, to), l);
  }

  ghost function SameState(): Relation {
    (s: State, t: State) => s == t
  }

  lemma RedirectedStep(env: Env, inst: Inst, from: Label, to: Label, d: Data)
    ensures var o := Exec(env, inst, d);
            Exec(env, Redirect(inst, from, to), d) == (if o == Goto(from) then Goto(to) else o)
  {
  }

  /** Jumping to the first of two adjacent labels comes behind the second one step later. */
  lemma RedirectedAdvances(env: Env, code: Code, i: nat, s: State)
    requires UniqueMarks(code) && MergeableAt(code, i) && s.Run?
    ensures Advances(env, code, Redirected(code, code[i + 1].l, code[i].l), SameState(), s, s)
  {
    var from, to := code[i + 1].l, code[i].l;
    var q := Redirected(code, from, to);
    FindUnique(code, from, i + 1);
    FindUnique(code, to, i);
    RedirectedFind(code, from, to, to);
    hide Exec, UniqueMarks, Redirect;
    OneStep(env, code, s);
    OneStep(env, q, s);
    if s.pc < |code| {
      var o := Exec(env, code[s.pc], s.data);
      RedirectedStep(env, code[s.pc], from, to, s.data);
      if o == Goto(from) {
        TwoSteps(env, q, s);
        MarkStays(code, from, to, i + 1);
        ControlStep(env, q, Run(i + 1, s.data));
        assert MatchedBy(env, code, q, SameState(), s, s, 1, 2);
        return;
      }
      if o.Goto? { RedirectedFind(code, from, to, o.to); }
    }
    assert MatchedBy(env, code, q, SameState(), s, s, 1, 1);
  }

  lemma MarkStays(code: Code, from: Label, to: Label, i: nat)
    requires i < |code| && code[i].Mark?
    ensures Redirected(code, from, to)[i] == code[i]
  {
  }

  lemma RedirectedPreserves(env: Env, code: Code, i: nat)
    requires UniqueMarks(code) && MergeableAt(code, i)
    ensures Preserves(env, code, Redirected(code, code[i + 1].l, code[i].l))
  {
    var q := Redirected(code, code[i + 1].l, code[i].l);
    forall s: State, t: State | s.Run? && t.Run? && s.data.trace == t.data.trace && SameState()(s, t)
      ensures Advances(env, code, q, SameState(), s, t)
    {
      RedirectedAdvances(env, code, i, s);
    }
    PreservesBySimulation(env, code, q, SameState());
  }

  lemma RedirectShape(inst: Inst, from: Label, to: Label)
    ensures var inst' := Redirect(inst, from, to);
            && Def(inst') == Def(inst) && Uses(inst') == Uses(inst)
            && (IsJump(inst') <==> IsJump(inst)) && (IsJump(inst) ==>
                                                       inst'.to == (if inst.to == from then to else inst.to))
            && (!IsJump(inst) ==> inst' == inst) && Reshapes(inst, inst')
  {
  }

  lemma RedirectedJumps(code: Code, i: nat)
    requires UniqueMarks(code) && TargetsExist(code) && MergeableAt(code, i)
    ensures JumpsImplied(code, Redirected(code, code[i + 1].l, code[i].l), Identity(|code|))
  {
    var from, to := code[i + 1].l, code[i].l;
    var q, e := Redirected(code, from, to), Identity(|code|);
    FindUnique(code, from, i + 1);
    FindUnique(code, to, i);
    hide UniqueMarks, Redirect;
    forall m | 0 <= m < |q| && IsJump(q[m]) ensures Find(q, q[m].to) < |q| && Implied(code, e[m], e[Find(q, q[m].to)]) {
      RedirectShape(code[m], from, to);
      RedirectedFind(code, from, to, q[m].to);
      OwnJumpsImplied(code, m);
      if code[m].to == from { ImpliedBefore(code, m, i); }
    }
  }

  lemma ImpliedBefore(code: Code, x: nat, i: nat)
    requires MergeableAt(code, i) && Implied(code, x, i + 1)
    ensures Implied(code, x, i)
  {
  }

  lemma RedirectedEmbeds(code: Code, from: Label, to: Label)
    requires UsesFollowDefinitions(code)
    ensures Embeds(code, Redirected(code, from, to), Identity(|code|))
        && ArmsSurvive(code, Redirected(code, from, to), Identity(|code|))
  {
    hide UsesFollowDefinitions, Redirect, Embeds, ArmsSurvive;
    var q := Redirected(code, from, to);
    forall i | 0 <= i < |code|
      ensures Def(q[i]) == Def(code[i]) && Uses(q[i]) == Uses(code[i])
      ensures q[i] != code[i] ==> IsJump(q[i]) && IsJump(code[i])
      ensures Reshapes(code[i], q[i])
    {
      RedirectShape(code[i], from, to);
    }
    InPlaceEmbeds(code, q);
  }

  lemma RedirectedKeepsForm(code: Code, i: nat)
    requires Lowered(code) && MergeableAt(code, i)
    ensures Lowered(Redirected(code, code[i + 1].l, code[i].l))
        && NoNew(code, Redirected(code, code[i + 1].l, code[i].l))
  {
    RedirectedJumps(code, i);
    RedirectedEmbeds(code, code[i + 1].l, code[i].l);
    hide JumpsImplied, Embeds, UsesFollowDefinitions, ArmsSurvive, NoNew;
    EmbeddingKeepsForm(code, Redirected(code, code[i + 1].l, code[i].l), Identity(|code|));
  }

  lemma AllButKept(code: Code, k: nat)
    requires k < |code|
    ensures Filter(code, AllBut(|code|, k)) == code[..k] + code[k + 1..]
  {
    FilterAll(code);
    assert AllBut(|code|, k) == AllKept(|code|)[k := false];
    FilterDropped(code, AllKept(|code|), k);
  }

  /** The second of two adjacent labels is a no-op that nobody names any more. */
  lemma MergedTargets(code: Code, i: nat)
    requires UniqueMarks(code) && TargetsExist(code) && MergeableAt(code, i)
    ensures KeepsTargets(Redirected(code, code[i + 1].l, code[i].l), AllBut(|code|, i + 1))
  {
    var from, to := code[i + 1].l, code[i].l;
    var q, keep := Redirected(code, from, to), AllBut(|code|, i + 1);
    FindUnique(code, from, i + 1);
    FindUnique(code, to, i);
    hide Redirect;
    forall m | 0 <= m < |q| && keep[m] && IsJump(q[m]) ensures Find(q, q[m].to) < |q| && keep[Find(q, q[m].to)] {
      RedirectShape(code[m], from, to);
      RedirectedFind(code, from, to, q[m].to);
    }
  }

  lemma MergedDeletion(env: Env, code: Code, i: nat)
    requires MergeableAt(code, i)
    requires var q := Redirected(code, code[i + 1].l, code[i].l); Lowered(q) && KeepsTargets(q, AllBut(|code|, i + 1))
    ensures var q := Redirected(code, code[i + 1].l, code[i].l); Preserves(env, q, MergedAt(code, i))
    ensures Lowered(MergedAt(code, i)) && Taken(MergedAt(code, i)) == Taken(code)
  {
    hide Lowered, UniqueMarks, TargetsExist, KeepsTargets, NoNew;
    var q, keep := Redirected(code, code[i + 1].l, code[i].l), AllBut(|code|, i + 1);
    LoweredMarks(q);
    MarkStays(code, code[i + 1].l, code[i].l, i + 1);
    forall m: nat, d: Data | m < |q| && !keep[m]
      ensures Unnoticed(env, q, SameDataWhere(Everywhere()), m, d, d)
    {
      assert Exec(env, q[m], d) == Next(d);
    }
    NoOpDeletionPreserves(env, q, keep);
    AllButKept(q, i + 1);
    KeepsConstants(q, keep);
    FilterKeepsForm(q, keep);
    RedirectedTaken(code, code[i + 1].l, code[i].l);
    FilterTaken(q, keep);
  }

  lemma MergedPreserves(env: Env, code: Code, i: nat)
    requires Lowered(code) && MergeableAt(code, i)
    ensures Preserves(env, code, MergedAt(code, i)) && Lowered(MergedAt(code, i)) && NoNew(code, MergedAt(code, i))
    ensures Taken(MergedAt(code, i)) == Taken(code)
  {
    var q := Redirected(code, code[i + 1].l, code[i].l);
    LoweredMarks(code);
    hide Lowered, UniqueMarks, TargetsExist, KeepsTargets, Preserves, Taken, NoNew;
    MergedTargets(code, i);
    RedirectedPreserves(env, code, i);
    RedirectedKeepsForm(code, i);
    MergedDeletion(env, code, i);
    PreservesTransitive(env, code, q, MergedAt(code, i));
    NoNewTransitive(code, q, MergedAt(code, i));
  }

  lemma RedirectedTaken(code: Code, from: Label, to: Label)
    ensures Taken(Redirected(code, from, to)) == Taken(code)
  {
    var q := Redirected(code, from, to);
    assert forall j :: 0 <= j < |code| ==> (code[j].AddrStack? <==> q[j].AddrStack?)
                                           && (code[j].AddrStack? ==> q[j] == code[j]);
  }

  lemma {:induction false} MergingPreserves(env: Env, code: Code, i: nat)
    requires Lowered(code)
    ensures Preserves(env, code, MergedFrom(code, i)) && Lowered(MergedFrom(code, i))
        && NoNew(code, MergedFrom(code, i))
    ensures Taken(MergedFrom(code, i)) == Taken(code)
    decreases |code| - i
  {
    hide Lowered, Preserves, Taken, NoNew;
    if i >= |code| {
      PreservesItself(env, code);
      NoNewItself(code);
    } else if MergeableAt(code, i) {
      MergedPreserves(env, code, i);
      MergingPreserves(env, MergedAt(code, i), i);
      PreservesTransitive(env, code, MergedAt(code, i), MergedFrom(code, i));
      NoNewTransitive(code, MergedAt(code, i), MergedFrom(code, i));
    } else {
      MergingPreserves(env, code, i + 1);
    }
  }

  // ===== 4. instructions behind a jump or a return =====

  predicate EndsControl(inst: Inst) {
    inst.Jmp? || inst.Ret?
  }

  /** Control cannot come to `i`: a jump or return stands before it and no label between. */
  ghost predicate CutOff(code: Code, i: nat)
    requires i < |code|
  {
    i > 0 && !code[i].Mark? && (EndsControl(code[i - 1]) || CutOff(code, i - 1))
  }

  ghost function Connected(code: Code): (keep: seq<bool>)
    ensures |keep| == |code|
  {
    seq(|code|, i requires 0 <= i < |code| => !CutOff(code, i))
  }

  ghost function WithoutCutOff(code: Code): Code {
    Filter(code, Connected(code))
  }

  /** The cursor stands behind a jump, a return or an instruction already unlinked. */
  ghost predicate Behind(code: Code, i: nat) {
    0 < i <= |code| && (EndsControl(code[i - 1]) || !Connected(code)[i - 1])
  }

  lemma CutAtCursor(code: Code, i: nat, insts: Code, pos: nat)
    requires Swept(code, code, Connected(code), i, insts, pos) && Behind(code, i)
    ensures pos <= |insts|
    ensures pos < |insts| && !insts[pos].Mark? ==>
              i < |code| && Behind(code, i + 1) && Swept(code, code, Connected(code), i + 1,
                                                         insts[..pos] + insts[pos + 1..], pos)
    ensures pos < |insts| && insts[pos].Mark? ==> i < |code| && Connected(code)[i]
  {
    hide Swept, Connected;
    var keep := Connected(code);
    SweepAt(code, code, keep, i, insts, pos);
    CursorInList(code, code, keep, i, insts, pos);
    ConnectedNext(code, i - 1);
    if pos < |insts| && !insts[pos].Mark? { SweepDrop(code, code, keep, i, insts, pos); }
  }

  lemma PassAtCursor(code: Code, i: nat, insts: Code, pos: nat)
    requires Swept(code, code, Connected(code), i, insts, pos) && pos < |insts| && (i < |code| ==> Connected(code)[i])
    ensures i < |code| && Swept(code, code, Connected(code), i + 1, insts, pos + 1)
    ensures EndsControl(insts[pos]) ==> Behind(code, i + 1)
    ensures !EndsControl(insts[pos]) && i + 1 < |code| ==> Connected(code)[i + 1]
  {
    hide Swept, Connected;
    SweepAt(code, code, Connected(code), i, insts, pos);
    SweepPast(code, code, Connected(code), i, insts, pos);
    ConnectedNext(code, i);
  }

  /** Unlinks everything from the cursor up to the next label. */
  method UnlinkToMark(fn: IRFunction, pos: nat, ghost code: Code, ghost i0: nat) returns (changed: bool, ghost i: nat)
    requires Swept(code, code, Connected(code), i0, fn.insts, pos) && Behind(code, i0)
    modifies fn
    ensures Swept(code, code, Connected(code), i, fn.insts, pos)
    ensures pos < |fn.insts| && i < |code| ==> Connected(code)[i]
    ensures |fn.insts| <= |old(fn.insts)|
    ensures !changed ==> fn.insts == old(fn.insts)
  {
    hide Swept, Connected, Behind;
    i := i0;
    changed := false;
    CutAtCursor(code, i, fn.insts, pos);
    while pos < |fn.insts| && !fn.insts[pos].Mark?
      invariant Swept(code, code, Connected(code), i, fn.insts, pos)
      invariant Behind(code, i) && pos <= |fn.insts| <= |old(fn.insts)|
      invariant !changed ==> fn.insts == old(fn.insts)
      decreases |fn.insts| - pos
    {
      CutAtCursor(code, i, fn.insts, pos);
      fn.Remove(pos);
      changed := true;
      i := i + 1;
    }
    CutAtCursor(code, i, fn.insts, pos);
  }

  /** Finds each jump or return and unlinks what follows it up to the next label. */
  method RemoveCutOff(fn: IRFunction) returns (changed: bool)
    modifies fn
    ensures fn.insts == WithoutCutOff(old(fn.insts))
    ensures LeftOut(old(fn.insts), fn.insts, NeverReached(old(fn.insts)))
    ensures !changed ==> fn.insts == old(fn.insts)
  {
    ghost var code := fn.insts;
    ghost var i: nat := 0;
    var pos := 0;
    changed := false;
    SweepStart(code, code, Connected(code));
    FirstConnected(code);
    WithoutCutOffIs(code);
    hide *;
    while pos < |fn.insts|
      invariant Swept(code, code, Connected(code), i, fn.insts, pos)
      invariant pos < |fn.insts| && i < |code| ==> Connected(code)[i]
      invariant !changed ==> fn.insts == code
      decreases |fn.insts| - pos
    {
      PassAtCursor(code, i, fn.insts, pos);
      var ends := EndsControl(fn.insts[pos]);
      i, pos := i + 1, pos + 1;
      if ends {
        var cut;
        cut, i := UnlinkToMark(fn, pos, code, i);
        changed := changed || cut;
      }
    }
    SweepEnd(code, code, Connected(code), i, fn.insts, pos);
    CutOffLeave(code);
  }

  lemma WithoutCutOffIs(code: Code)
    ensures WithoutCutOff(code) == Filter(code, Connected(code))
  {
  }

  lemma FirstConnected(code: Code)
    ensures |code| > 0 ==> Connected(code)[0]
  {
  }

  lemma MarksConnected(code: Code, i: nat)
    requires i < |code| && code[i].Mark?
    ensures Connected(code)[i] && (i + 1 < |code| ==> Connected(code)[i + 1])
  {
  }

  lemma ConnectedNext(code: Code, i: nat)
    requires i < |code|
    ensures i + 1 < |code| ==> (Connected(code)[i + 1] <==>
                                  code[i + 1].Mark? || (Connected(code)[i] && !EndsControl(code[i])))
  {
  }

  ghost function NotCutOff(code: Code): nat -> bool {
    (i: nat) => i < |code| ==> Connected(code)[i]
  }

  lemma {:induction false} CutOffGoesOn(code: Code, j: nat, x: nat)
    requires j <= x < |code| && CutOff(code, j) && forall m :: j < m <= x ==> !code[m].Mark?
    ensures CutOff(code, x)
    decreases x
  {
    if j < x { CutOffGoesOn(code, j, x - 1); }
  }

  lemma {:induction false} CutOffBehindMark(code: Code, m: nat, j: nat)
    requires m < j < |code| && code[m].Mark? && forall x :: m < x < j ==> !Leaves(code[x])
    ensures !CutOff(code, j)
    decreases j
  {
    if m < j - 1 { CutOffBehindMark(code, m, j - 1); }
  }

  lemma CutOffLoses(code: Code)
    ensures LosesConstants(code, Connected(code))
  {
    hide UsedIn, CutOff;
    var keep := Connected(code);
    forall j | 0 <= j < |code| && code[j].Const? && !keep[j] ensures Lost(code, keep, j) {
      forall x | j < x < |code| && keep[x] ensures exists m :: j < m <= x && code[m].Mark? {
        if forall m :: j < m <= x ==> !code[m].Mark? { CutOffGoesOn(code, j, x); }
      }
      forall m | 0 <= m < j < |code| && code[m].Mark? && (forall x :: m < x < j ==> !Leaves(code[x])) ensures !keep[m] {
        if keep[m] { CutOffBehindMark(code, m, j); }
      }
    }
  }

  lemma CutOffPreserves(env: Env, code: Code)
    requires Lowered(code)
    ensures Preserves(env, code, WithoutCutOff(code)) && Lowered(WithoutCutOff(code))
        && NoNew(code, WithoutCutOff(code))
    ensures Taken(WithoutCutOff(code)) <= Taken(code)
  {
    hide Lowered, Connected, NoNew;
    LoweredMarks(code);
    var keep, ok := Connected(code), NotCutOff(code);
    FirstConnected(code);
    forall i: nat | i < |code| && IsJump(code[i])
      ensures Find(code, code[i].to) < |code| && keep[Find(code, code[i].to)] && ok(Find(code, code[i].to) + 1)
    {
      MarksConnected(code, Find(code, code[i].to));
    }
    forall i: nat | i < |code| && ok(i) && !code[i].Jmp? && !code[i].Ret? ensures ok(i + 1) {
      ConnectedNext(code, i);
    }
    UnreachedDeletionPreserves(env, code, keep, ok);
    CutOffLoses(code);
    FilterKeepsForm(code, keep);
    FilterTaken(code, keep);
  }

  // ===== the whole pass =====

  ghost function CfgSimplified(code: Code): Code {
    WithoutCutOff(MergedFrom(WithoutFalseChoices(BranchesInverted(code)), 0))
  }

  method CfgSimplification(fn: IRFunction) returns (changed: bool)
    modifies fn
    ensures fn.insts == CfgSimplified(old(fn.insts))
    ensures !changed ==> fn.insts == old(fn.insts)
  {
    var changed1 := InvertBranches(fn);
    var changed2 := FoldSameDestinations(fn);
    var changed3 := MergeLabels(fn);
    var changed4 := RemoveCutOff(fn);
    changed := changed1 || changed2 || changed3 || changed4;
  }

  lemma CfgSimplificationPreserves(env: Env, code: Code)
    requires Lowered(code)
    ensures Preserves(env, code, CfgSimplified(code)) && Lowered(CfgSimplified(code))
        && NoNew(code, CfgSimplified(code))
    ensures Taken(CfgSimplified(code)) <= Taken(code)
  {
    var code1 := BranchesInverted(code);
    var code2 := WithoutFalseChoices(code1);
    var code3 := MergedFrom(code2, 0);
    LoweredMarks(code);
    hide Lowered, Preserves, BranchesInverted, WithoutFalseChoices, MergedFrom, WithoutCutOff, Taken, NoNew;
    InversionPreserves(env, code);
    InversionKeepsForm(code);
    FalseChoicesPreserves(env, code1);
    MergingPreserves(env, code2, 0);
    CutOffPreserves(env, code3);
    PreservesTransitive(env, code, code1, code2);
    NoNewTransitive(code, code1, code2);
    PreservesTransitive(env, code, code2, code3);
    NoNewTransitive(code, code2, code3);
    PreservesTransitive(env, code, code3, CfgSimplified(code));
    NoNewTransitive(code, code3, CfgSimplified(code));
  }

  // ===== what each step leaves =====

  /** A conditional branch around a jump. */
  predicate AroundJump(code: Code, i: int) {
    0 <= i && i + 2 < |code| && code[i].JmpIf? && code[i + 1].Jmp? && code[i + 2] == Mark(code[i].to)
  }

  ghost function JumpedAround(code: Code): set<nat> {
    set i: nat | i + 1 < |code| && AroundJump(code, i) :: i + 1
  }

  /** Each such branch takes the opposite condition and the target of the jump, which is left out. */
  ghost predicate Inverts(code: Code, q: Code) {
    exists mid: Code :: |mid| == |code| && LeftOut(mid, q, JumpedAround(code)) && forall i :: 0 <= i < |code| ==>
      mid[i] == if AroundJump(code, i) then JmpIf(!code[i].nonzero, code[i].cond, code[i + 1].to) else code[i]
  }

  lemma BranchesInvert(code: Code)
    ensures Inverts(code, BranchesInverted(code))
  {
    hide LeftOut;
    forall j: nat | j < |code| ensures NotSkipped(code)[j] <==> j !in JumpedAround(code) {
      if j > 0 && AroundJump(code, j - 1) { assert j - 1 + 1 in JumpedAround(code); }
    }
    FilterLeaves(Inverted(code), NotSkipped(code), JumpedAround(code));
  }

  /** The branches right before a jump to the same label. */
  ghost function EqualBranches(code: Code): set<nat> {
    set j: nat | j + 1 < |code| && code[j].JmpIf? && code[j + 1] == Jmp(code[j].to)
  }

  lemma EqualBranchesLeave(code: Code)
    ensures LeftOut(code, WithoutFalseChoices(code), EqualBranches(code))
  {
    FilterLeaves(code, RealChoices(code), EqualBranches(code));
  }

  ghost predicate NoAdjacentLabels(code: Code) {
    forall i :: 0 <= i < |code| - 1 && code[i].Mark? && code[i + 1].Mark? ==> code[i] == code[i + 1]
  }

  /** Merging leaves no two labels side by side. */
  lemma {:induction false} MergedApart(code: Code, i: nat)
    requires forall j :: 0 <= j < i ==> !MergeableAt(code, j)
    ensures NoAdjacentLabels(MergedFrom(code, i))
    decreases |code| - i
  {
    if i < |code| {
      if MergeableAt(code, i) {
        var c := MergedAt(code, i);
        forall j | 0 <= j < i ensures !MergeableAt(c, j) { assert !MergeableAt(code, j); }
        MergedApart(c, i);
      } else {
        MergedApart(code, i + 1);
      }
    } else {
      forall j | 0 <= j < |code| - 1 && code[j].Mark? && code[j + 1].Mark? ensures code[j] == code[j + 1] {
        assert !MergeableAt(code, j);
      }
    }
  }

  /** The instructions behind a jump or return, up to the next label. */
  ghost function NeverReached(code: Code): set<nat> {
    set j: nat | j < |code| && Follows(code, j)
  }

  ghost predicate Follows(code: Code, j: nat)
    requires j < |code|
  {
    exists h: nat :: h < j && (code[h].Jmp? || code[h].Ret?) && forall m :: h < m <= j ==> !code[m].Mark?
  }

  lemma FollowsOn(code: Code, j: nat)
    requires 0 < j < |code|
    ensures Follows(code, j) ==>
              !code[j].Mark? && (code[j - 1].Jmp? || code[j - 1].Ret? || Follows(code, j - 1))
  {
    if Follows(code, j) {
      var h: nat :| h < j && (code[h].Jmp? || code[h].Ret?) && forall m :: h < m <= j ==> !code[m].Mark?;
      if h < j - 1 { assert Follows(code, j - 1); }
    }
  }

  lemma FollowsNext(code: Code, j: nat)
    requires 0 < j < |code| && !code[j].Mark? && (code[j - 1].Jmp? || code[j - 1].Ret? || Follows(code, j - 1))
    ensures Follows(code, j)
  {
    if Follows(code, j - 1) {
      var h: nat :| h < j - 1 && (code[h].Jmp? || code[h].Ret?) && forall m :: h < m <= j - 1 ==> !code[m].Mark?;
      assert forall m :: h < m <= j ==> !code[m].Mark?;
    } else {
      assert forall m :: j - 1 < m <= j ==> !code[m].Mark?;
    }
  }

  lemma {:induction false} CutOffIs(code: Code, j: nat)
    requires j < |code|
    ensures CutOff(code, j) <==> Follows(code, j)
  {
    if j > 0 {
      CutOffIs(code, j - 1);
      FollowsOn(code, j);
      hide Follows;
      if CutOff(code, j) { FollowsNext(code, j); }
    }
  }

  lemma CutOffLeave(code: Code)
    ensures LeftOut(code, WithoutCutOff(code), NeverReached(code))
  {
    forall j: nat | j < |code| ensures Connected(code)[j] <==> j !in NeverReached(code) { CutOffIs(code, j); }
    hide NeverReached, Connected;
    FilterLeaves(code, Connected(code), NeverReached(code));
    WithoutCutOffIs(code);
  }
}
