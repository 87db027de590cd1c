/** Where the blocks and labels of a compiled function are in its instruction list. */
module CodeLayout {
  import opened Word64
  import opened IR
  import opened LoweredForm
  import opened RegAlloc
  import opened X86
  import opened CodeGen
  import Arguments
  import opened Residence

  // ----- where blocks and labels are -----

  function Program(u: Compilation): seq<Asm>
  {
    Assembled(u.code, u.a, u.w.base, u.area)
  }

  function Pos(u: Compilation, k: nat): nat
    requires k <= |u.code|
  {
    |Prologue(u.a, u.w.base, u.area)| + |Blocks(u.code, u.a, u.w.base, k)|
  }

  lemma {:induction false} BlocksPrefix(code: Code, a: Allocation, base: nat, j: nat, k: nat)
    requires j <= k <= |code|
    ensures Blocks(code, a, base, j) <= Blocks(code, a, base, k)
    decreases k
  {
    hide Block;
    if j < k {
      BlocksPrefix(code, a, base, j, k - 1);
      BlocksNext(code, a, base, k - 1);
    }
  }

  /** The block of instruction `k` is found at its position. */
  lemma BlockAt(u: Compilation, k: nat)
    requires k < |u.code|
    ensures Pos(u, k + 1) == Pos(u, k) + |Block(u.code, u.a, u.w.base, k)| <= |Program(u)|
    ensures Program(u)[Pos(u, k)..Pos(u, k + 1)] == Block(u.code, u.a, u.w.base, k)
  {
    hide Block, Blocks, Prologue, Ending;
    var first, b := Blocks(u.code, u.a, u.w.base, k), Block(u.code, u.a, u.w.base, k);
    BlocksNext(u.code, u.a, u.w.base, k);
    BlocksPrefix(u.code, u.a, u.w.base, k + 1, |u.code|);
    PartOf(Prologue(u.a, u.w.base, u.area), first, b, Blocks(u.code, u.a, u.w.base, |u.code|), Ending(u.a));
  }

  lemma PartOf(front: seq<Asm>, first: seq<Asm>, b: seq<Asm>, all: seq<Asm>, end: seq<Asm>)
    requires first + b <= all
    ensures (front + all + end)[|front| + |first|..|front| + |first + b|] == b
  {
    assert all[..|first + b|] == first + b;
    assert (front + all + end)[..|front| + |first + b|] == front + (first + b);
  }

  predicate NoLabels(xs: seq<Asm>) {
    forall x :: x in xs ==> !x.Lab?
  }

  lemma NoLabelsAppend(xs: seq<Asm>, ys: seq<Asm>)
    requires NoLabels(xs) && NoLabels(ys)
    ensures NoLabels(xs + ys)
  {
  }

  lemma MovesNoLabels(a: Allocation, base: nat, o: Opnd, r: Gpr, d: nat)
    ensures NoLabels(LoadTo(a, base, o, r)) && NoLabels(StoreFrom(a, base, r, d))
  {
  }

  lemma ArgMoveNoLabels(a: Allocation, base: nat, o: Opnd, p: Arguments.Place)
    ensures NoLabels(ArgMove(a, base, o, p))
  {
    MovesNoLabels(a, base, o, RAX, 0);
    if p.InReg? && p.n < 6 { MovesNoLabels(a, base, o, ARG_REGS[p.n], 0); }
    hide LoadTo;
  }

  lemma {:induction false} ArgMovesNoLabels(a: Allocation, base: nat, args: seq<Opnd>, kinds: seq<Arg>, n: nat)
    requires n <= |args| == |kinds|
    ensures NoLabels(ArgMoves(a, base, args, kinds, n))
  {
    hide ArgMove, Arguments.Places;
    if n > 0 {
      ArgMovesNoLabels(a, base, args, kinds, n - 1);
      ArgMoveNoLabels(a, base, args[n - 1], Arguments.Places(kinds)[n - 1]);
      hide NoLabels;
      NoLabelsAppend(ArgMoves(a, base, args, kinds, n - 1),
                     ArgMove(a, base, args[n - 1], Arguments.Places(kinds)[n - 1]));
    }
  }

  lemma ArithmeticNoLabels(a: Allocation, base: nat, op: BinOp, x: Opnd, y: Opnd)
    ensures NoLabels(Arithmetic(a, base, op, x, y))
  {
    assert NoLabels(LoadTo(a, base, x, RAX)) && NoLabels(LoadBoth(a, base, x, y));
    hide LoadTo, LoadBoth;
  }

  lemma CallingNoLabels(a: Allocation, base: nat, callee: Callee, args: seq<Opnd>, kinds: seq<Arg>)
    requires |args| == |kinds|
    ensures NoLabels(Calling(a, base, callee, args, kinds))
  {
    ArgMovesNoLabels(a, base, args, kinds, |args|);
    if callee.Indirect? { MovesNoLabels(a, base, callee.target, R11, 0); }
    hide LoadTo, StoreFrom, ArgMoves, ArgSpace, Arguments.TakenBy;
  }

  lemma TranslatedLabels(a: Allocation, base: nat, inst: Inst)
    ensures inst.Mark? ==> Translated(a, base, inst) == [Lab(Local(inst.l))]
    ensures !inst.Mark? ==> NoLabels(Translated(a, base, inst))
  {
    forall o: Opnd, r: Gpr ensures NoLabels(LoadTo(a, base, o, r)) { MovesNoLabels(a, base, o, r, 0); }
    forall d: nat, r: Gpr ensures NoLabels(StoreFrom(a, base, r, d)) { MovesNoLabels(a, base, Imm(0), r, d); }
    hide LoadTo, StoreFrom, Arithmetic, Calling;
    if inst.Bin? { ArithmeticNoLabels(a, base, inst.op, inst.a, inst.b); }
    if inst.Call? {
      CallingNoLabels(a, base, inst.callee, inst.args, Arguments.Kinds(inst.kinds, |inst.args|));
    }
  }

  lemma FusedNoLabels(a: Allocation, base: nat, cmp: Inst, branch: Inst)
    requires cmp.Bin? && IsCompare(cmp.op) && branch.JmpIf?
    ensures NoLabels(FusedBranch(a, base, cmp, branch))
  {
    assert NoLabels(LoadTo(a, base, cmp.a, RAX)) && NoLabels(LoadTo(a, base, cmp.b, RCX));
    hide LoadTo;
  }

  lemma BlockLabels(code: Code, a: Allocation, base: nat, k: nat, t: Tag)
    requires k < |code|
    ensures Lab(t) in Block(code, a, base, k) ==> t.Local? && code[k] == Mark(t.l)
  {
    TranslatedLabels(a, base, code[k]);
    hide Translated, FusedBranch;
    if Fused(code, k) { FusedNoLabels(a, base, code[k], code[k + 1]); }
  }

  lemma {:induction false} LabelNotBefore(u: Compilation, t: Tag, k: nat)
    requires k <= |u.code|
    requires t.Local? ==> k <= Find(u.code, t.l)
    ensures Lab(t) !in Blocks(u.code, u.a, u.w.base, k)
  {
    hide Block, Find;
    if k > 0 {
      LabelNotBefore(u, t, k - 1);
      BlocksNext(u.code, u.a, u.w.base, k - 1);
      hide Blocks;
      BlockLabels(u.code, u.a, u.w.base, k - 1, t);
      NotFoundEarlier(u.code, t, k - 1);
    }
  }

  lemma NotFoundEarlier(code: Code, t: Tag, i: nat)
    requires i < |code| && (t.Local? ==> i < Find(code, t.l))
    ensures t.Local? ==> code[i] != Mark(t.l)
  {
  }

  lemma {:induction false} SavesNoLabels(a: Allocation, r: nat)
    requires r <= 5
    ensures NoLabels(Saves(a, r))
  {
    if r > 0 { SavesNoLabels(a, r - 1); }
  }

  lemma {:induction false} GeneralNoLabels(at: int, n: nat)
    requires n <= 6
    ensures NoLabels(GeneralSaves(at, n))
  {
    if n > 0 { GeneralNoLabels(at, n - 1); }
  }

  lemma {:induction false} VectorNoLabels(at: int, n: nat)
    ensures NoLabels(VectorSaves(at, n))
  {
    if n > 0 { VectorNoLabels(at, n - 1); }
  }

  lemma AreaNoLabels(area: Option<int>)
    ensures NoLabels(SaveArea(area))
  {
    hide GeneralSaves, VectorSaves;
    if area.Some? {
      GeneralNoLabels(area.value, 6);
      VectorNoLabels(area.value + 48, 8);
    }
  }

  /** No label precedes the code of the instructions. */
  lemma NotInFront(u: Compilation, t: Tag, k: nat)
    requires k <= |u.code| && Lab(t) !in Blocks(u.code, u.a, u.w.base, k)
    ensures Lab(t) !in Prologue(u.a, u.w.base, u.area) + Blocks(u.code, u.a, u.w.base, k)
  {
    SavesNoLabels(u.a, 5);
    AreaNoLabels(u.area);
    hide Saves, SaveArea, Blocks;
  }

  lemma WhereIs(asm: seq<Asm>, t: Tag, i: nat)
    requires i < |asm| && asm[i] == Lab(t) && Lab(t) !in asm[..i]
    ensures Where(asm, t) == i
  {
    assert forall j :: 0 <= j < i ==> asm[j] == asm[..i][j] && asm[j] != Lab(t);
  }

  lemma FrontOf(u: Compilation, k: nat)
    requires k <= |u.code|
    ensures Pos(u, k) < |Program(u)|
    ensures Program(u)[..Pos(u, k)] == Prologue(u.a, u.w.base, u.area) + Blocks(u.code, u.a, u.w.base, k)
    ensures Program(u)[Pos(u, |u.code|)..] == Ending(u.a)
  {
    BlocksPrefix(u.code, u.a, u.w.base, k, |u.code|);
    hide Blocks, Prologue;
  }

  lemma MarkBlock(u: Compilation, i: nat)
    requires i < |u.code| && u.code[i].Mark?
    ensures Block(u.code, u.a, u.w.base, i) == [Lab(Local(u.code[i].l))]
  {
    TranslatedLabels(u.a, u.w.base, u.code[i]);
    hide Translated;
  }

  lemma FirstOf(xs: seq<Asm>, i: nat, j: nat, x: Asm)
    requires i <= j <= |xs| && xs[i..j] == [x]
    ensures i < |xs| && xs[i] == x
  {
    assert xs[i] == xs[i..j][0];
  }

  /** A jump to a mark goes to the block behind it. */
  lemma LabelPosition(u: Compilation, l: Label)
    requires Find(u.code, l) < |u.code|
    ensures Where(Program(u), Local(l)) + 1 == Pos(u, Find(u.code, l) + 1)
  {
    hide *;
    var i := Find(u.code, l);
    MarkBlock(u, i);
    BlockAt(u, i);
    FrontOf(u, i);
    LabelNotBefore(u, Local(l), i);
    NotInFront(u, Local(l), i);
    FirstOf(Program(u), Pos(u, i), Pos(u, i + 1), Lab(Local(l)));
    WhereIs(Program(u), Local(l), Pos(u, i));
  }

  lemma EpiloguePosition(u: Compilation)
    ensures Where(Program(u), Epilogue) == Pos(u, |u.code|)
  {
    assert Ending(u.a)[0] == Lab(Epilogue);
    hide *;
    FrontOf(u, |u.code|);
    LabelNotBefore(u, Epilogue, |u.code|);
    NotInFront(u, Epilogue, |u.code|);
    assert Program(u)[Pos(u, |u.code|)] == Program(u)[Pos(u, |u.code|)..][0];
    WhereIs(Program(u), Epilogue, Pos(u, |u.code|));
  }
}
