/** Calls: every argument reaches its register or outgoing cell before anything it needs is overwritten,
    the stack pointer is 16-byte aligned, and what is live across the call survives it. */
module CallSteps {
  import opened Word64
  import opened IR
  import opened LoweredForm
  import opened Liveness
  import LinearScan
  import opened RegAlloc
  import opened X86
  import opened CodeGen
  import opened Residence
  import opened Selection
  import opened BlockSteps
  import Arguments

  /** `m1` differs from `m` in scratch registers and below the frame only. */
  ghost predicate FrameKept(u: Compilation, m: Machine, m1: Machine) {
    && m1.bp == m.bp && m1.sp <= m.sp && m1.trace == m.trace
    && (forall r: Gpr :: r in m.gpr && !Scratch(r) ==> r in m1.gpr && m1.gpr[r] == m.gpr[r])
    && (forall x: int :: 0 <= x + Size(u) ==> (x in m.stack <==> x in m1.stack)
                                              && (x in m.stack ==> m1.stack[x] == m.stack[x]))
  }

  lemma OperandKept(u: Compilation, m: Machine, m1: Machine, o: Opnd, w: Word)
    requires FrameKept(u, m, m1) && m.bp == 0 && m.sp + Size(u) == 0 && OperandAt(u, m, o, w)
    ensures OperandAt(u, m1, o, w)
  {
    PhysNotScratch();
  }

  // ----- moving arguments -----

  ghost predicate ArgsPassed(m: Machine, kinds: seq<Arg>, ws: seq<Word>, n: nat)
    requires n <= |ws| == |kinds|
  {
    forall j: nat :: j < n ==> ArgAt(m, kinds, j) == Some(ws[j])
  }

  lemma {:induction false} ArgsGathered(m: Machine, kinds: seq<Arg>, ws: seq<Word>, n: nat)
    requires n <= |ws| == |kinds| && ArgsPassed(m, kinds, ws, n)
    ensures ArgsAt(m, kinds, n) == Some(ws[..n])
  {
    hide ArgAt;
    if n > 0 {
      ArgsGathered(m, kinds, ws, n - 1);
      assert ArgAt(m, kinds, n - 1) == Some(ws[n - 1]);
      assert ws[..n] == ws[..n - 1] + [ws[n - 1]];
    } else {
      assert ws[..0] == [];
    }
  }

  lemma LoadedKept(u: Compilation, m: Machine, m0: Machine, m1: Machine, r: Gpr, w: Word)
    requires FrameKept(u, m, m0) && Loaded(m0, m1, r, w) && Scratch(r)
    ensures FrameKept(u, m, m1)
  {
  }

  /** The places of different arguments do not overlap, and hold no scratch but the argument registers. */
  lemma {:induction false} PlacesApart(kinds: seq<Arg>, j: nat, i: nat)
    requires j < i < |kinds|
    ensures var p, q := Arguments.Places(kinds)[j], Arguments.Places(kinds)[i];
            && p != q
            && (p.InReg? ==> p.n < 6 && ARG_REGS[p.n] != RAX) && (q.InReg? ==> q.n < 6)
            && (p.InReg? && q.InReg? ==> ARG_REGS[p.n] != ARG_REGS[q.n])
            && (p.OnStack? && q.OnStack? ==> Apart(p.offset, q.offset))
  {
    Arguments.CellsDistinct(kinds);
    hide Arguments.Places, Arguments.TakenBy, Arguments.Counted;
  }

  lemma {:induction false} PlaceBounds(kinds: seq<Arg>, i: nat)
    requires i < |kinds|
    ensures var p := Arguments.Places(kinds)[i];
            && (p.InReg? ==> p.n < 6) && (p.OnStack? ==> p.offset % 8 == 0 && p.offset + 8 <= 8 * StackCells(kinds))
  {
    Arguments.CellsDistinct(kinds);
    hide Arguments.Places, Arguments.TakenBy, Arguments.Counted;
  }

  lemma {:induction false} RegisterPassed(m0: Machine, m1: Machine, kinds: seq<Arg>, ws: seq<Word>, i: nat, r: nat)
    requires i < |ws| == |kinds| && Arguments.Places(kinds)[i] == Arguments.InReg(r) && r < 6
    requires ArgsPassed(m0, kinds, ws, i) && Loaded(m0, m1, ARG_REGS[r], ws[i])
    ensures ArgsPassed(m1, kinds, ws, i + 1)
  {
    hide Arguments.Places;
    forall j: nat | j < i + 1 ensures ArgAt(m1, kinds, j) == Some(ws[j]) {
      if j < i {
        assert ArgAt(m0, kinds, j) == Some(ws[j]);
        PlacesApart(kinds, j, i);
      }
    }
  }

  lemma {:induction false} VectorPassed(u: Compilation, m: Machine, m0: Machine, m1: Machine, kinds: seq<Arg>,
                                        ws: seq<Word>, i: nat, x: nat)
    requires i < |ws| == |kinds| && Arguments.Places(kinds)[i] == Arguments.InXmm(x)
    requires ArgsPassed(m0, kinds, ws, i) && FrameKept(u, m, m0) && Loaded(m0, m1, RAX, ws[i])
    ensures Do(u.w, ToXmm(x), m1).Some?
    ensures var m2 := Do(u.w, ToXmm(x), m1).value;
            FrameKept(u, m, m2) && m2.sp == m0.sp && ArgsPassed(m2, kinds, ws, i + 1)
  {
    var m2 := Do(u.w, ToXmm(x), m1).value;
    assert m2 == m1.(xmm := m1.xmm[x := ws[i]]);
    hide Do, Arguments.Places;
    forall j: nat | j < i + 1 ensures ArgAt(m2, kinds, j) == Some(ws[j]) {
      if j < i {
        assert ArgAt(m0, kinds, j) == Some(ws[j]);
        PlacesApart(kinds, j, i);
      }
    }
  }

  lemma {:induction false} CellPassed(u: Compilation, m: Machine, m0: Machine, m1: Machine, kinds: seq<Arg>,
                                      ws: seq<Word>, i: nat, off: nat)
    requires i < |ws| == |kinds| && Arguments.Places(kinds)[i] == Arguments.OnStack(off)
    requires ArgsPassed(m0, kinds, ws, i) && FrameKept(u, m, m0)
    requires Loaded(m0, m1, RAX, ws[i]) && m0.sp + off + 8 + Size(u) <= 0
    ensures Do(u.w, StoreOut(off), m1).Some?
    ensures var m2 := Do(u.w, StoreOut(off), m1).value;
            FrameKept(u, m, m2) && m2.sp == m0.sp && ArgsPassed(m2, kinds, ws, i + 1)
  {
    var m2 := Do(u.w, StoreOut(off), m1).value;
    assert m2 == m1.(stack := Put(m1.stack, m1.sp + off, ws[i]));
    hide Do, Arguments.Places;
    forall j: nat | j < i + 1 ensures ArgAt(m2, kinds, j) == Some(ws[j]) {
      if j < i {
        assert ArgAt(m0, kinds, j) == Some(ws[j]);
        PlacesApart(kinds, j, i);
      }
    }
  }

  ghost predicate Moved(u: Compilation, m: Machine, m0: Machine, xs: seq<Asm>, kinds: seq<Arg>, ws: seq<Word>, n: nat)
    requires n <= |ws| == |kinds|
  {
    var m1 := RunAll(u.w, xs, m0);
    m1.Some? && FrameKept(u, m, m1.value) && m1.value.sp == m0.sp && ArgsPassed(m1.value, kinds, ws, n)
  }

  lemma {:induction false} OneMoved(u: Compilation, m: Machine, m0: Machine, o: Opnd, kinds: seq<Arg>, ws: seq<Word>,
                                    i: nat)
    requires FrameKept(u, m, m0) && m.bp == 0 && m.sp + Size(u) == 0
    requires i < |ws| == |kinds| && OperandAt(u, m, o, ws[i]) && ArgsPassed(m0, kinds, ws, i)
    requires m0.sp + 8 * StackCells(kinds) + Size(u) <= 0
    ensures Moved(u, m, m0, ArgMove(u.a, u.w.base, o, Arguments.Places(kinds)[i]), kinds, ws, i + 1)
  {
    OperandKept(u, m, m0, o, ws[i]);
    ScratchNames();
    PlaceBounds(kinds, i);
    hide FrameKept, OperandAt, Do, RunAll, LoadTo, ArgsPassed, Scratch, StackCells, Arguments.Places;
    match Arguments.Places(kinds)[i]
    case InReg(n) =>
      var r := ARG_REGS[n];
      LoadRuns(u, m0, o, r, ws[i]);
      var m1 := RunAll(u.w, LoadTo(u.a, u.w.base, o, r), m0).value;
      LoadedKept(u, m, m0, m1, r, ws[i]);
      RegisterPassed(m0, m1, kinds, ws, i, n);
    case InXmm(n) =>
      LoadRuns(u, m0, o, RAX, ws[i]);
      var xs := LoadTo(u.a, u.w.base, o, RAX);
      VectorPassed(u, m, m0, RunAll(u.w, xs, m0).value, kinds, ws, i, n);
      RunThen(u.w, xs, ToXmm(n), m0);
    case OnStack(off) =>
      LoadRuns(u, m0, o, RAX, ws[i]);
      var xs := LoadTo(u.a, u.w.base, o, RAX);
      CellPassed(u, m, m0, RunAll(u.w, xs, m0).value, kinds, ws, i, off);
      RunThen(u.w, xs, StoreOut(off), m0);
  }

  /** After the moves every argument is where the callee looks for it: in its general or vector register or
      its stack cell, whatever the kinds of the arguments. */
  lemma {:induction false} ArgMovesRun(u: Compilation, m: Machine, m0: Machine, args: seq<Opnd>, kinds: seq<Arg>,
                                       ws: seq<Word>, n: nat)
    requires FrameKept(u, m, m0) && m.bp == 0 && m.sp + Size(u) == 0
    requires n <= |args| == |ws| == |kinds| && forall i :: 0 <= i < |args| ==> OperandAt(u, m, args[i], ws[i])
    requires m0.sp + 8 * StackCells(kinds) + Size(u) <= 0
    ensures Moved(u, m, m0, ArgMoves(u.a, u.w.base, args, kinds, n), kinds, ws, n)
  {
    hide FrameKept, OperandAt, Do, ArgMove, ArgsAt, ArgAt, StackCells, Arguments.Places;
    if n > 0 {
      ArgMovesRun(u, m, m0, args, kinds, ws, n - 1);
      var xs := ArgMoves(u.a, u.w.base, args, kinds, n - 1);
      var ys := ArgMove(u.a, u.w.base, args[n - 1], Arguments.Places(kinds)[n - 1]);
      var m1 := RunAll(u.w, xs, m0).value;
      OneMoved(u, m, m1, args[n - 1], kinds, ws, n - 1);
      RunAppend(u.w, xs, ys, m0);
    }
  }

  // ----- the call itself -----

  lemma {:induction false} SetCountKeeps(w: World, m: Machine, kinds: seq<Arg>, ws: seq<Word>, v: nat)
    requires |ws| == |kinds| && ArgsPassed(m, kinds, ws, |ws|)
    ensures Do(w, SetVectorCount(v), m).Some?
    ensures var m1 := Do(w, SetVectorCount(v), m).value;
            && ArgsPassed(m1, kinds, ws, |ws|) && m1 == m.(gpr := m1.gpr)
            && forall r: Gpr :: r != RAX && r in m.gpr ==> r in m1.gpr && m1.gpr[r] == m.gpr[r]
  {
    var m1 := Do(w, SetVectorCount(v), m).value;
    hide Do, PutByte, Arguments.Places;
    forall j: nat | j < |ws| ensures ArgAt(m1, kinds, j) == Some(ws[j]) {
      assert ArgAt(m, kinds, j) == Some(ws[j]);
      NotInRax(kinds, j);
    }
  }

  lemma {:induction false} NotInRax(kinds: seq<Arg>, j: nat)
    requires j < |kinds|
    ensures var p := Arguments.Places(kinds)[j]; p.InReg? ==> p.n < 6 && ARG_REGS[p.n] != RAX
  {
    hide Arguments.Places, Arguments.TakenBy;
    PlaceBounds(kinds, j);
  }

  /** `m1` is `m` as far as a call and what follows it can tell. */
  ghost predicate BeforeCall(u: Compilation, m: Machine, m1: Machine, kinds: seq<Arg>) {
    && m1.bp == m.bp && m1.sp % 16 == 0 && m1.trace == m.trace && m1.sp + 8 * StackCells(kinds) + Size(u) <= 0
    && (forall r: Gpr :: r in m.gpr && Preserved(r) ==> r in m1.gpr && m1.gpr[r] == m.gpr[r])
    && (forall x: int :: 0 <= x + Size(u) ==> (x in m.stack <==> x in m1.stack)
                                              && (x in m.stack ==> m1.stack[x] == m.stack[x]))
  }

  lemma DirectCallRuns(u: Compilation, m: Machine, m1: Machine, name: nat, kinds: seq<Arg>, ws: seq<Word>)
      returns (m2: Machine)
    requires |ws| == |kinds| && FrameKept(u, m, m1) && m1.sp % 16 == 0 && m1.sp + 8 * StackCells(kinds) + Size(u) <= 0
    requires ArgsPassed(m1, kinds, ws, |ws|)
    ensures BeforeCall(u, m, m2, kinds) && ArgsPassed(m2, kinds, ws, |ws|) && m2.sp == m1.sp
    ensures RunAll(u.w, [SetVectorCount(Arguments.TakenBy(kinds).fp), CallName(name, kinds)], m1)
        == DoCall(u.w, m2, Named(name), kinds)
  {
    SetCountKeeps(u.w, m1, kinds, ws, Arguments.TakenBy(kinds).fp);
    m2 := Do(u.w, SetVectorCount(Arguments.TakenBy(kinds).fp), m1).value;
    NameCalls(u.w, m2, name, kinds);
    BeforeDirect(u, m, m1, m2, kinds);
    hide *;
    RunOne(u.w, SetVectorCount(Arguments.TakenBy(kinds).fp), m1);
    RunThen(u.w, [SetVectorCount(Arguments.TakenBy(kinds).fp)], CallName(name, kinds), m1);
    assert [SetVectorCount(Arguments.TakenBy(kinds).fp)] + [CallName(name, kinds)]
        == [SetVectorCount(Arguments.TakenBy(kinds).fp), CallName(name, kinds)];
  }

  /** Setting the count changes nothing but rax. */
  lemma BeforeDirect(u: Compilation, m: Machine, m1: Machine, m2: Machine, kinds: seq<Arg>)
    requires FrameKept(u, m, m1) && m1.sp % 16 == 0 && m1.sp + 8 * StackCells(kinds) + Size(u) <= 0
    requires m2 == m1.(gpr := m2.gpr)
    requires forall r: Gpr :: r != RAX && r in m1.gpr ==> r in m2.gpr && m2.gpr[r] == m1.gpr[r]
    ensures BeforeCall(u, m, m2, kinds)
  {
    hide StackCells, FrameSize;
  }

  lemma NameCalls(w: World, m: Machine, name: nat, kinds: seq<Arg>)
    ensures Do(w, CallName(name, kinds), m) == DoCall(w, m, Named(name), kinds)
  {
    hide DoCall;
  }

  lemma CallToRuns(u: Compilation, m: Machine, m1: Machine, callee: Callee, t: Target, kinds: seq<Arg>, ws: seq<Word>)
      returns (m2: Machine)
    requires |ws| == |kinds| && FrameKept(u, m, m1) && m.bp == 0 && m.sp + Size(u) == 0
    requires m1.sp % 16 == 0 && m1.sp + 8 * StackCells(kinds) + Size(u) <= 0
    requires ArgsPassed(m1, kinds, ws, |ws|)
    requires callee.Direct? ==> t == Named(callee.name)
    requires callee.Indirect? ==> t.At? && OperandAt(u, m, callee.target, t.address)
    ensures BeforeCall(u, m, m2, kinds) && ArgsPassed(m2, kinds, ws, |ws|) && m2.sp == m1.sp
    ensures RunAll(u.w, CallTo(u.a, u.w.base, callee, kinds), m1) == DoCall(u.w, m2, t, kinds)
  {
    hide FrameKept, DoCall, RunAll, ArgsPassed, OperandAt, BeforeCall;
    if callee.Direct? {
      m2 := DirectCallRuns(u, m, m1, callee.name, kinds, ws);
    } else {
      m2 := IndirectCallRuns(u, m, m1, callee, t, kinds, ws);
    }
  }

  lemma {:induction false} R11Kept(u: Compilation, m: Machine, m1: Machine, m2: Machine, kinds: seq<Arg>, ws: seq<Word>,
                                   w: Word)
    requires |ws| == |kinds| && FrameKept(u, m, m1) && Loaded(m1, m2, R11, w)
    requires ArgsPassed(m1, kinds, ws, |ws|) && m1.sp % 16 == 0 && m1.sp + 8 * StackCells(kinds) + Size(u) <= 0
    ensures ArgsPassed(m2, kinds, ws, |ws|) && BeforeCall(u, m, m2, kinds) && m2.sp == m1.sp
  {
    hide Arguments.Places, StackCells;
    forall j: nat | j < |ws| ensures ArgAt(m2, kinds, j) == Some(ws[j]) {
      assert ArgAt(m1, kinds, j) == Some(ws[j]);
      PlaceBounds(kinds, j);
    }
  }

  lemma IndirectCallRuns(u: Compilation, m: Machine, m1: Machine, callee: Callee, t: Target, kinds: seq<Arg>,
                         ws: seq<Word>) returns (m3: Machine)
    requires |ws| == |kinds| && FrameKept(u, m, m1) && m.bp == 0 && m.sp + Size(u) == 0
    requires m1.sp % 16 == 0 && m1.sp + 8 * StackCells(kinds) + Size(u) <= 0
    requires ArgsPassed(m1, kinds, ws, |ws|)
    requires callee.Indirect? && t.At? && OperandAt(u, m, callee.target, t.address)
    ensures BeforeCall(u, m, m3, kinds) && ArgsPassed(m3, kinds, ws, |ws|) && m3.sp == m1.sp
    ensures RunAll(u.w, CallTo(u.a, u.w.base, callee, kinds), m1) == DoCall(u.w, m3, t, kinds)
  {
    hide Do, DoCall, ArgsPassed, RunAll, FrameKept, LoadTo, OperandAt;
    OperandKept(u, m, m1, callee.target, t.address);
    var xs := LoadTo(u.a, u.w.base, callee.target, R11);
    assert CallTo(u.a, u.w.base, callee, kinds)
        == xs + [SetVectorCount(Arguments.TakenBy(kinds).fp)] + [CallR11(kinds)];
    LoadRuns(u, m1, callee.target, R11, t.address);
    var m2 := RunAll(u.w, xs, m1).value;
    R11Kept(u, m, m1, m2, kinds, ws, t.address);
    SetCountKeeps(u.w, m2, kinds, ws, Arguments.TakenBy(kinds).fp);
    m3 := Do(u.w, SetVectorCount(Arguments.TakenBy(kinds).fp), m2).value;
    RunThen(u.w, xs, SetVectorCount(Arguments.TakenBy(kinds).fp), m1);
    RunThen(u.w, xs + [SetVectorCount(Arguments.TakenBy(kinds).fp)], CallR11(kinds), m1);
    R11Calls(u.w, m3, kinds);
    assert BeforeCall(u, m, m3, kinds);
  }

  lemma R11Calls(w: World, m: Machine, kinds: seq<Arg>)
    requires R11 in m.gpr
    ensures Do(w, CallR11(kinds), m) == DoCall(w, m, At(m.gpr[R11]), kinds)
  {
    hide DoCall;
  }

  lemma SurvivesCall(u: Compilation, k: nat, v: nat)
    requires Good(u) && k < |u.code| && u.code[k].Call? && v != u.code[k].d
    requires LiveAt(u.code, v, k + 1) && Defined(u.code, v)
    ensures LiveAt(u.code, v, k)
    ensures RegOf(u.a, v) != NONE ==> Preserved(PHYS[RegOf(u.a, v)])
    ensures RegOf(u.a, v) == NONE ==>
              var off := OffsetOf(u.a, u.w.base, v); 0 <= off + Size(u) && off !in u.w.cells
  {
    LiveBefore(u.code, v, k, k + 1);
    LiveInside(u, v, k);
    LocationOf(u, v);
    assert CrossesCall(u.code, u.start[v], u.end[v]);
    assert CallSafe(u.code, u.start, u.end, u.a.reg);
    PhysNotScratch();
  }

  lemma AfterCallHolds(u: Compilation, m: Machine, m2: Machine, kinds: seq<Arg>, result: CallResult, v: nat, w: Word,
                       trace: Trace)
    requires Good(u) && BeforeCall(u, m, m2, kinds) && Holds(u, m, v, w) && result.slots.Keys == u.w.cells
    requires RegOf(u.a, v) != NONE ==> Preserved(PHYS[RegOf(u.a, v)])
    requires RegOf(u.a, v) == NONE ==>
               var off := OffsetOf(u.a, u.w.base, v); 0 <= off + Size(u) && off !in u.w.cells
    ensures Holds(u, AfterCall(u.w, m2, kinds, result).(sp := m.sp, flags := None, trace := trace), v, w)
  {
    hide Good;
  }

  /** Cells of the frame outside the locals survive, and the locals are the callee's. */
  lemma AfterCallCells(u: Compilation, m: Machine, m2: Machine, kinds: seq<Arg>, result: CallResult)
    requires BeforeCall(u, m, m2, kinds) && result.slots.Keys <= u.w.cells
    ensures var stack := AfterCall(u.w, m2, kinds, result).stack;
            && Locals(u.w, stack) == result.slots
            && (forall x: int :: 0 <= x + Size(u) && x !in u.w.cells && x in m.stack ==>
                                   x in stack && stack[x] == m.stack[x])
    ensures var gpr := AfterCall(u.w, m2, kinds, result).gpr;
            forall r: Gpr :: r in m.gpr && Preserved(r) ==> r in gpr && gpr[r] == m.gpr[r]
  {
    hide FrameSize;
  }

  lemma CellsSurvive(u: Compilation, stack: Cells, stack': Cells)
    requires Good(u) && StackIntact(u, stack)
    requires forall x: int :: 0 <= x + Size(u) && x !in u.w.cells && x in stack ==>
                                x in stack' && stack'[x] == stack[x]
    ensures StackIntact(u, stack')
  {
    FrameDisjoint(u.w.base, u.start, u.a);
    forall r | 0 <= r < 5 && u.a.used[r]
      ensures u.a.save[r] in stack' && PHYS[r] in u.entry.gpr && stack'[u.a.save[r]] == u.entry.gpr[PHYS[r]]
    {
      assert CellInside(u.a.save[r], Size(u), u.w.base);
    }
    forall i | 0 <= i < |u.code| && u.code[i].StoreArg? && u.code[i].arg.ArgStack?
      ensures var off := u.code[i].arg.n; off in stack' && stack'[off] == u.w.env.incoming(u.code[i].arg)
    {
      assert ArgArrived(u.w.env, u.entry, u.code[i].arg);
    }
  }

  lemma AfterCallSettled(u: Compilation, d: Data, m: Machine, m2: Machine, kinds: seq<Arg>, result: CallResult,
                         trace: Trace)
    requires Good(u) && Settled(u, d, m) && BeforeCall(u, m, m2, kinds) && result.slots.Keys == u.w.cells
    ensures Settled(u, Data(d.regs, result.slots, trace),
                    AfterCall(u.w, m2, kinds, result).(sp := m.sp, flags := None, trace := trace))
  {
    AfterCallCells(u, m, m2, kinds, result);
    var m3 := AfterCall(u.w, m2, kinds, result);
    assert m3.bp == m2.bp == m.bp by { BeforeCallBp(u, m, m2, kinds); }
    PhysNotScratch();
    CellsSurvive(u, m.stack, m3.stack);
    hide Good, StackIntact, BeforeCall, AfterCall, Locals;
  }

  lemma BeforeCallBp(u: Compilation, m: Machine, m2: Machine, kinds: seq<Arg>)
    requires BeforeCall(u, m, m2, kinds)
    ensures m2.bp == m.bp
  {
  }

  lemma AdjustRuns(w: World, m: Machine, bytes: nat)
    ensures RunAll(w, Adjust(true, bytes), m).Some? && RunAll(w, Adjust(false, bytes), m).Some?
    ensures var m1 := RunAll(w, Adjust(true, bytes), m).value; m1 == m.(sp := m.sp - bytes, flags := m1.flags)
    ensures var m1 := RunAll(w, Adjust(false, bytes), m).value; m1 == m.(sp := m.sp + bytes, flags := m1.flags)
  {
    assert Do(w, SubSp(bytes), m) == Some(m.(sp := m.sp - bytes, flags := None));
    assert Do(w, AddSp(bytes), m) == Some(m.(sp := m.sp + bytes, flags := None));
    hide Do, RunAll;
    RunOne(w, SubSp(bytes), m);
    RunOne(w, AddSp(bytes), m);
  }

  lemma {:induction false} OperandsReady(u: Compilation, k: nat, d: Data, m: Machine, args: seq<Opnd>, ws: seq<Word>)
    requires Good(u) && Related(u, k, d, m) && k < |u.code|
    requires RegsOfAll(args) <= Uses(u.code[k]) && Vals(d.regs, args) == Some(ws)
    ensures |args| == |ws| && forall i :: 0 <= i < |args| ==> OperandAt(u, m, args[i], ws[i])
  {
    hide Good, Related, OperandAt, Uses;
    if args != [] {
      assert RegsOf(args[0]) <= RegsOfAll(args) by { assert args[0] in args; }
      assert RegsOfAll(args[1..]) <= RegsOfAll(args);
      OperandReady(u, k, d, m, args[0]);
      OperandsReady(u, k, d, m, args[1..], ws[1..]);
      forall i | 0 <= i < |args| ensures OperandAt(u, m, args[i], ws[i]) {
        if i > 0 { assert args[i] == args[1..][i - 1] && ws[i] == ws[1..][i - 1]; }
      }
    }
  }

  /** Down to the call: the arguments are in place. */
  lemma ArgumentsRun(u: Compilation, m: Machine, args: seq<Opnd>, kinds: seq<Arg>, ws: seq<Word>) returns (m1: Machine)
    requires |args| == |ws| == |kinds| && (forall i :: 0 <= i < |ws| ==> OperandAt(u, m, args[i], ws[i]))
    requires m.bp == 0 && m.sp + Size(u) == 0
    ensures FrameKept(u, m, m1) && m1.sp == m.sp - ArgSpace(kinds) && ArgsPassed(m1, kinds, ws, |ws|)
    ensures RunAll(u.w, Adjust(true, ArgSpace(kinds)) + ArgMoves(u.a, u.w.base, args, kinds, |args|), m) == Some(m1)
  {
    hide *;
    CallSpace(u, kinds);
    var space, moves := ArgSpace(kinds), ArgMoves(u.a, u.w.base, args, kinds, |ws|);
    AdjustRuns(u.w, m, space);
    var m0 := RunAll(u.w, Adjust(true, space), m).value;
    LoweredKeeps(u, m, m0);
    ArgMovesRun(u, m, m0, args, kinds, ws, |ws|);
    MovedIs(u, m, m0, moves, kinds, ws, |ws|);
    RunAppend(u.w, Adjust(true, space), moves, m);
    m1 := RunAll(u.w, moves, m0).value;
  }

  /** The call block leads to a machine that is ready for the result. */
  lemma CallingRuns(u: Compilation, k: nat, d: Data, m: Machine, t: Target, ws: seq<Word>)
    requires Good(u) && Related(u, k, d, m) && k < |u.code| && u.code[k].Call?
    requires TargetOf(d.regs, u.code[k].callee) == Some(t) && Vals(d.regs, u.code[k].args) == Some(ws)
    ensures var i := u.code[k];
            var result := Answer(u.w.env, d.trace, t, ws, d.slots);
            var m4 := RunAll(u.w, Calling(u.a, u.w.base, i.callee, i.args, Arguments.Kinds(i.kinds, |i.args|)), m);
            && m4.Some? && RAX in m4.value.gpr && m4.value.gpr[RAX] == result.value
            && Ready(u, k, i.d, Data(d.regs, result.slots, d.trace + [Called(t, ws, Shown(u.w.env, d.slots))]),
                     m4.value)
  {
    hide *;
    var i := u.code[k];
    var kinds := Arguments.Kinds(i.kinds, |i.args|);
    CallOperands(u, k, d, m, t, ws);
    RelatedIs(u, k, d, m);
    SettledFrame(u, d, m);
    CallSpace(u, kinds);
    var space := ArgSpace(kinds);
    var first, to := Adjust(true, space) + ArgMoves(u.a, u.w.base, i.args, kinds, |ws|),
        CallTo(u.a, u.w.base, i.callee, kinds);
    CallingIs(u.a, u.w.base, i.callee, i.args, kinds);
    var m1 := ArgumentsRun(u, m, i.args, kinds, ws);
    var m2 := CallToRuns(u, m, m1, i.callee, t, kinds, ws);
    CallDone(u, d, m, m2, t, kinds, ws);
    RunAppend(u.w, first, to, m);
    var m3 := DoCall(u.w, m2, t, kinds).value;
    AdjustRuns(u.w, m3, space);
    RunAppend(u.w, first + to, Adjust(false, space), m);
    var m4 := RunAll(u.w, Adjust(false, space), m3).value;
    AfterCallSp(u.w, m2, kinds, Answer(u.w.env, d.trace, t, ws, d.slots));
    ReadyAfterCall(u, k, d, m, m2, m4, t, kinds, ws);
  }

  lemma AfterCallSp(w: World, m: Machine, kinds: seq<Arg>, result: CallResult)
    ensures AfterCall(w, m, kinds, result).sp == m.sp
  {
  }

  lemma CallSpace(u: Compilation, kinds: seq<Arg>)
    ensures ArgSpace(kinds) % 16 == 0 && Size(u) % 16 == 0 && 8 * StackCells(kinds) <= ArgSpace(kinds)
  {
  }

  lemma CallingIs(a: Allocation, base: nat, callee: Callee, args: seq<Opnd>, kinds: seq<Arg>)
    requires |args| == |kinds|
    ensures Calling(a, base, callee, args, kinds)
         == Adjust(true, ArgSpace(kinds)) + ArgMoves(a, base, args, kinds, |args|) + CallTo(a, base, callee, kinds)
            + Adjust(false, ArgSpace(kinds))
  {
  }

  lemma MovedIs(u: Compilation, m: Machine, m0: Machine, xs: seq<Asm>, kinds: seq<Arg>, ws: seq<Word>, n: nat)
    requires n <= |ws| == |kinds| && Moved(u, m, m0, xs, kinds, ws, n)
    ensures RunAll(u.w, xs, m0).Some?
    ensures var m1 := RunAll(u.w, xs, m0).value; FrameKept(u, m, m1) && m1.sp == m0.sp && ArgsPassed(m1, kinds, ws, n)
  {
  }

  lemma LoweredKeeps(u: Compilation, m: Machine, m0: Machine)
    requires m0 == m.(sp := m0.sp, flags := m0.flags) && m0.sp <= m.sp
    ensures FrameKept(u, m, m0)
  {
  }

  lemma CallOperands(u: Compilation, k: nat, d: Data, m: Machine, t: Target, ws: seq<Word>)
    requires Good(u) && Related(u, k, d, m) && k < |u.code| && u.code[k].Call?
    requires TargetOf(d.regs, u.code[k].callee) == Some(t) && Vals(d.regs, u.code[k].args) == Some(ws)
    ensures var i := u.code[k];
            && |i.args| == |ws| && (forall j :: 0 <= j < |ws| ==> OperandAt(u, m, i.args[j], ws[j]))
            && (i.callee.Direct? ==> t == Named(i.callee.name))
            && (i.callee.Indirect? ==> t.At? && OperandAt(u, m, i.callee.target, t.address))
  {
    hide Good, Related, OperandAt;
    OperandsReady(u, k, d, m, u.code[k].args, ws);
    if u.code[k].callee.Indirect? { OperandReady(u, k, d, m, u.code[k].callee.target); }
  }

  lemma BeforeCallLocals(u: Compilation, d: Data, m: Machine, m2: Machine, kinds: seq<Arg>)
    requires Good(u) && Settled(u, d, m) && BeforeCall(u, m, m2, kinds)
    ensures Locals(u.w, m2.stack) == d.slots && m2.trace == d.trace && m2.sp % 16 == 0
  {
    FrameDisjoint(u.w.base, u.start, u.a);
    forall k | k in u.w.cells
      ensures (k in m2.stack <==> k in m.stack) && (k in m.stack ==> m2.stack[k] == m.stack[k])
    {
      assert IsLocal(u.w.base, k) && 0 <= k + Size(u);
    }
    hide Good, StackIntact, BeforeCall;
    assert Locals(u.w, m2.stack) == Locals(u.w, m.stack);
  }

  lemma CallDone(u: Compilation, d: Data, m: Machine, m2: Machine, t: Target, kinds: seq<Arg>, ws: seq<Word>)
    requires |ws| == |kinds| && Good(u) && Settled(u, d, m) && BeforeCall(u, m, m2, kinds)
        && ArgsPassed(m2, kinds, ws, |ws|)
    ensures var result := Answer(u.w.env, d.trace, t, ws, d.slots);
            var trace := d.trace + [Called(t, ws, Shown(u.w.env, d.slots))];
            DoCall(u.w, m2, t, kinds) == Some(AfterCall(u.w, m2, kinds, result).(trace := trace))
  {
    BeforeCallLocals(u, d, m, m2, kinds);
    ArgsGathered(m2, kinds, ws, |ws|);
    assert ws[..|ws|] == ws;
    hide Good, Settled, BeforeCall, ArgsPassed, ArgsAt, AfterCall;
  }

  lemma ReadyAfterCall(u: Compilation, k: nat, d: Data, m: Machine, m2: Machine, m4: Machine, t: Target,
                       kinds: seq<Arg>, ws: seq<Word>)
    requires Good(u) && Related(u, k, d, m) && k < |u.code| && u.code[k].Call?
    requires BeforeCall(u, m, m2, kinds)
    requires var result := Answer(u.w.env, d.trace, t, ws, d.slots);
             var trace := d.trace + [Called(t, ws, Shown(u.w.env, d.slots))];
             m4 == AfterCall(u.w, m2, kinds, result).(sp := m.sp, flags := m4.flags, trace := trace)
    ensures var result := Answer(u.w.env, d.trace, t, ws, d.slots);
            Ready(u, k, u.code[k].d, Data(d.regs, result.slots, d.trace + [Called(t, ws, Shown(u.w.env, d.slots))]), m4)
            && RAX in m4.gpr && m4.gpr[RAX] == result.value
  {
    var result := Answer(u.w.env, d.trace, t, ws, d.slots);
    var trace := d.trace + [Called(t, ws, Shown(u.w.env, d.slots))];
    var dst := u.code[k].d;
    var m5 := AfterCall(u.w, m2, kinds, result).(sp := m.sp, flags := None, trace := trace);
    assert m4 == m5.(flags := m4.flags);
    assert RAX in m4.gpr && m4.gpr[RAX] == result.value;
    hide *;
    RelatedIs(u, k, d, m);
    SettledCells(u, d, m);
    AfterCallSettled(u, d, m, m2, kinds, result, trace);
    var d' := Data(d.regs, result.slots, trace);
    HeldIs(u, k, d.regs, m);
    forall v: nat | v in d.regs && v != dst && LiveAt(u.code, v, k + 1) ensures Holds(u, m5, v, d.regs[v]) {
      DefinedIs(u, d.regs, v);
      SurvivesCall(u, k, v);
      HeldAt(u, k, d.regs, m, v);
      AfterCallHolds(u, m, m2, kinds, result, v, d.regs[v], trace);
    }
    ReadyIs(u, k, dst, d', m5);
    FlagsDoNotMatter(u, k, dst, d', m5, m4);
  }

  lemma SettledCells(u: Compilation, d: Data, m: Machine)
    requires Settled(u, d, m)
    ensures d.slots.Keys == u.w.cells
  {
  }

  lemma FlagsDoNotMatter(u: Compilation, k: nat, dst: nat, d: Data, m: Machine, m1: Machine)
    requires Ready(u, k, dst, d, m) && m1 == m.(flags := m1.flags)
    ensures Ready(u, k, dst, d, m1)
  {
    ScratchedSettled(u, d, m, m1);
    hide Settled;
  }

  lemma CallMeans(env: Env, i: Inst, d: Data, d': Data)
    requires i.Call? && Exec(env, i, d) == Next(d')
    ensures var t, ws := TargetOf(d.regs, i.callee), Vals(d.regs, i.args);
            && t.Some? && ws.Some?
            && var result := Answer(env, d.trace, t.value, ws.value, d.slots);
               var before := Data(d.regs, result.slots, d.trace + [Called(t.value, ws.value, Shown(env, d.slots))]);
               d' == before.(regs := before.regs[i.d := result.value])
  {
  }

  lemma CallBlock(a: Allocation, base: nat, code: Code, k: nat)
    requires k < |code| && code[k].Call?
    ensures Translated(a, base, code[k]) == Calling(a, base, code[k].callee, code[k].args,
                                                    Arguments.Kinds(code[k].kinds, |code[k].args|))
                                                      + StoreFrom(a, base, RAX, code[k].d)
    ensures Def(code[k]) == Some(code[k].d) && Follows(code, k, k + 1)
  {
  }

  /** The call and the store of its result. */
  lemma Calls(u: Compilation, k: nat, d: Data, m: Machine, d': Data)
    requires Good(u) && Related(u, k, d, m) && k < |u.code| && u.code[k].Call?
    requires Exec(u.w.env, u.code[k], d) == Next(d')
    ensures Arrives(u, k, m, Translated(u.a, u.w.base, u.code[k]), d')
  {
    hide *;
    var i := u.code[k];
    CallMeans(u.w.env, i, d, d');
    var t, ws := TargetOf(d.regs, i.callee).value, Vals(d.regs, i.args).value;
    CallingRuns(u, k, d, m, t, ws);
    CallBlock(u.a, u.w.base, u.code, k);
    var result := Answer(u.w.env, d.trace, t, ws, d.slots);
    var before := Data(d.regs, result.slots, d.trace + [Called(t, ws, Shown(u.w.env, d.slots))]);
    var xs, ys := Calling(u.a, u.w.base, i.callee, i.args, Arguments.Kinds(i.kinds, |i.args|)),
        StoreFrom(u.a, u.w.base, RAX, i.d);
    var m4 := RunAll(u.w, xs, m).value;
    ScratchNames();
    StoreArrives(u, k, before, m4, i.d, RAX, result.value);
    RunAppend(u.w, xs, ys, m);
    ArrivesIs(u, k, m4, ys, d');
    ArrivesIs(u, k, m, xs + ys, d');
  }
}
