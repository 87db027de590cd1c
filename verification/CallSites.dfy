/** A lowered call at the moment of the call instruction: the arguments stand where the callee looks for them, by
    register and stack cell (section 3.2.3 of the System V AMD64 ABI). */
module CallSites {
  import opened Word64
  import opened IR
  import opened LoweredForm
  import opened X86
  import opened CodeGen
  import opened CodeLayout
  import opened Residence
  import opened Selection
  import opened BlockSteps
  import opened CallSteps
  import opened CompiledRuns
  import opened Handover
  import Arguments
  import opened Pipeline
  import Source
  import Lowering
  import LocalSlots
  import Compiler

  /** The `i`-th of several integers is in rdi, rsi, rdx, rcx, r8 or r9, or else in its cell at the stack pointer. */
  ghost predicate HasInteger(m: Machine, i: nat, w: Word) {
    if i < 6 then
      var r := [RDI, RSI, RDX, RCX, R8, R9][i];
      r in m.gpr && m.gpr[r] == w
    else m.sp + 8 * (i - 6) in m.stack && m.stack[m.sp + 8 * (i - 6)] == w
  }

  /** The machine is about to call `name` with these integers: aligned, and with no vector register in use. */
  ghost predicate AboutToCall(asm: seq<Asm>, x: XState, name: nat, ws: seq<Word>) {
    && x.Going? && x.pc < |asm| && asm[x.pc].CallName? && asm[x.pc].name == name
    && x.m.sp % 16 == 0
    && (RAX in x.m.gpr ==> x.m.gpr[RAX] % 256 == 0)
    && forall i :: 0 <= i < |ws| ==> HasInteger(x.m, i, ws[i])
  }

  // ----- integers, piece by piece -----

  lemma OneMore(n: nat)
    ensures Arguments.Same(Arg(false, false), n + 1) == Arguments.Same(Arg(false, false), n) + [Arg(false, false)]
  {
  }

  lemma {:induction false} PlainTaken(n: nat)
    ensures Arguments.TakenBy(Arguments.Same(Arg(false, false), n))
         == Arguments.Taken(if n < 6 then n else 6, 0, if n < 6 then 0 else n - 6)
  {
    if n > 0 {
      PlainTaken(n - 1);
      OneMore(n - 1);
      Arguments.AddPiece(Arguments.Same(Arg(false, false), n - 1), Arg(false, false));
    }
  }

  lemma {:induction false} PlainPlace(n: nat, i: nat)
    requires i < n
    ensures Arguments.Places(Arguments.Same(Arg(false, false), n))[i]
         == if i < 6 then Arguments.InReg(i) else Arguments.OnStack(8 * (i - 6))
  {
    OneMore(n - 1);
    Arguments.AddPiece(Arguments.Same(Arg(false, false), n - 1), Arg(false, false));
    PlainTaken(n - 1);
    if i < n - 1 { PlainPlace(n - 1, i); }
  }

  /** A call that says nothing of the kinds of its arguments passes integers. */
  lemma NoKinds(n: nat)
    ensures Arguments.Kinds([], n) == Arguments.Same(Arg(false, false), n)
  {
  }

  function Integers(n: nat): (r: seq<Arguments.Param>)
    ensures |r| == n && forall i :: 0 <= i < n ==> r[i] == Arguments.Integer
  {
    seq(n, _ => Arguments.Integer)
  }

  /** The cells that a function of `n` integers stores its parameters from. */
  lemma {:induction false} IntegerCells(n: nat)
    ensures var cells := Arguments.CellsOf(false, Integers(n));
            && |cells| == n
            && forall i :: 0 <= i < n ==> cells[i] == if i < 6 then ArgReg(i) else ArgStack(16 + 8 * (i - 6))
    ensures Arguments.TakenByParams(false, Integers(n))
         == Arguments.Taken(if n < 6 then n else 6, 0, if n < 6 then 0 else n - 6)
  {
    if n > 0 {
      IntegerCells(n - 1);
      assert Integers(n)[..|Integers(n)| - 1] == Integers(n - 1);
    }
  }

  // ----- down to the call instruction -----

  /** The code of a call up to the call instruction. */
  function UpToCall(u: Compilation, args: seq<Opnd>, kinds: seq<Arg>): seq<Asm>
    requires |args| == |kinds|
  {
    Adjust(true, ArgSpace(kinds)) + ArgMoves(u.a, u.w.base, args, kinds, |args|)
    + [SetVectorCount(Arguments.TakenBy(kinds).fp)]
  }

  lemma CallBegins(u: Compilation, k: nat)
    requires k < |u.code| && u.code[k].Call? && u.code[k].callee.Direct? && !(k > 0 && Fused(u.code, k - 1))
    ensures var i := u.code[k];
            var kinds := Arguments.Kinds(i.kinds, |i.args|);
            UpToCall(u, i.args, kinds) + [CallName(i.callee.name, kinds)] <= Block(u.code, u.a, u.w.base, k)
  {
    var i := u.code[k];
    var kinds := Arguments.Kinds(i.kinds, |i.args|);
    hide Adjust, ArgMoves, Arguments.TakenBy, Arguments.Kinds;
    var rest := Adjust(false, ArgSpace(kinds)) + StoreFrom(u.a, u.w.base, RAX, i.d);
    assert Translated(u.a, u.w.base, i) == UpToCall(u, i.args, kinds) + [CallName(i.callee.name, kinds)] + rest;
  }

  lemma CallPrepared(u: Compilation, k: nat, d: Data, m: Machine, ws: seq<Word>) returns (m1: Machine)
    requires Good(u) && Related(u, k, d, m) && k < |u.code| && u.code[k].Call? && u.code[k].callee.Direct?
    requires Vals(d.regs, u.code[k].args) == Some(ws)
    ensures |u.code[k].args| == |ws|
    ensures var kinds := Arguments.Kinds(u.code[k].kinds, |ws|);
            && ArgsPassed(m1, kinds, ws, |ws|) && m1.sp % 16 == 0
            && RunAll(u.w, UpToCall(u, u.code[k].args, kinds), m)
               == Do(u.w, SetVectorCount(Arguments.TakenBy(kinds).fp), m1)
  {
    hide *;
    var args, t := u.code[k].args, Named(u.code[k].callee.name);
    TargetIs(d.regs, u.code[k].callee);
    CallOperands(u, k, d, m, t, ws);
    RelatedIs(u, k, d, m);
    SettledFrame(u, d, m);
    var kinds := Arguments.Kinds(u.code[k].kinds, |ws|);
    CallSpace(u, kinds);
    m1 := ArgumentsRun(u, m, args, kinds, ws);
    var xs := Adjust(true, ArgSpace(kinds)) + ArgMoves(u.a, u.w.base, args, kinds, |args|);
    RunOne(u.w, SetVectorCount(Arguments.TakenBy(kinds).fp), m1);
    RunAppend(u.w, xs, [SetVectorCount(Arguments.TakenBy(kinds).fp)], m);
    UpToCallIs(u, args, kinds);
  }

  lemma TargetIs(regs: Regs, callee: Callee)
    requires callee.Direct?
    ensures TargetOf(regs, callee) == Some(Named(callee.name))
  {
  }

  lemma UpToCallIs(u: Compilation, args: seq<Opnd>, kinds: seq<Arg>)
    requires |args| == |kinds|
    ensures UpToCall(u, args, kinds) == Adjust(true, ArgSpace(kinds)) + ArgMoves(u.a, u.w.base, args, kinds, |args|)
                                        + [SetVectorCount(Arguments.TakenBy(kinds).fp)]
  {
  }

  lemma ZeroByte(w: Word)
    ensures PutByte(w, 0) % 256 == 0
  {
  }

  /** With the count of vector registers set to 0, all else stands. */
  lemma NoVectors(w: World, m: Machine, n: nat, ws: seq<Word>)
    requires |ws| == n && ArgsPassed(m, Arguments.Same(Arg(false, false), n), ws, n)
    ensures var m1 := Do(w, SetVectorCount(0), m);
            && m1.Some? && m1.value.sp == m.sp
            && (RAX in m1.value.gpr ==> m1.value.gpr[RAX] % 256 == 0)
            && forall i :: 0 <= i < n ==> HasInteger(m1.value, i, ws[i])
  {
    if RAX in m.gpr { ZeroByte(m.gpr[RAX]); }
    hide PutByte, Arguments.Places;
    var kinds := Arguments.Same(Arg(false, false), n);
    var m1 := Do(w, SetVectorCount(0), m).value;
    forall i | 0 <= i < n ensures HasInteger(m1, i, ws[i]) {
      assert ArgAt(m, kinds, i) == Some(ws[i]);
      PlainPlace(n, i);
    }
  }

  /** The machine code runs up to the call instruction. */
  lemma RunsUpTo(u: Compilation, k: nat, m: Machine, kinds: seq<Arg>)
    requires k < |u.code| && u.code[k].Call? && u.code[k].callee.Direct? && !(k > 0 && Fused(u.code, k - 1))
    requires kinds == Arguments.Kinds(u.code[k].kinds, |u.code[k].args|)
    requires RunAll(u.w, UpToCall(u, u.code[k].args, kinds), m).Some?
    ensures var xs := UpToCall(u, u.code[k].args, kinds);
            && XSteps(u.w, Program(u), Going(Pos(u, k), m), |xs|)
               == Going(Pos(u, k) + |xs|, RunAll(u.w, xs, m).value)
            && Pos(u, k) + |xs| < |Program(u)|
            && Program(u)[Pos(u, k) + |xs|] == CallName(u.code[k].callee.name, kinds)
  {
    hide *;
    var xs := UpToCall(u, u.code[k].args, kinds);
    CallBegins(u, k);
    PrefixOf(xs, CallName(u.code[k].callee.name, kinds), Block(u.code, u.a, u.w.base, k));
    BlockRuns(u, k, xs, m);
    BlockAt(u, k);
    InBlock(Program(u), Pos(u, k), Pos(u, k + 1), |xs|);
  }

  lemma CallComes(u: Compilation, k: nat, d: Data, m: Machine, ws: seq<Word>) returns (n: nat)
    requires Good(u) && Related(u, k, d, m) && !(k > 0 && Fused(u.code, k - 1)) && k < |u.code|
    requires u.code[k].Call? && u.code[k].callee.Direct? && u.code[k].kinds == []
    requires Vals(d.regs, u.code[k].args) == Some(ws)
    ensures AboutToCall(Program(u), XSteps(u.w, Program(u), Going(Pos(u, k), m), n), u.code[k].callee.name, ws)
  {
    hide *;
    var m1 := CallPrepared(u, k, d, m, ws);
    NoKinds(|ws|);
    PlainTaken(|ws|);
    NoVectors(u.w, m1, |ws|, ws);
    var kinds := Arguments.Kinds([], |ws|);
    RunsUpTo(u, k, m, kinds);
    n := |UpToCall(u, u.code[k].args, kinds)|;
    AboutIs(Program(u), Pos(u, k) + n, Do(u.w, SetVectorCount(0), m1).value, u.code[k].callee.name, kinds, ws);
  }

  // ----- arguments of any kind -----

  lemma {:induction false} VectorsCounted(kinds: seq<Arg>)
    ensures Arguments.TakenBy(kinds).fp == |set i | 0 <= i < |kinds| && Arguments.Places(kinds)[i].InXmm?|
  {
    var all := set i | 0 <= i < |kinds| && Arguments.Places(kinds)[i].InXmm?;
    if kinds == [] {
      assert all == {};
    } else {
      var n := |kinds| - 1;
      var init, last := kinds[..n], kinds[n];
      VectorsCounted(init);
      assert kinds == init + [last];
      Arguments.AddPiece(init, last);
      hide Arguments.Places, Arguments.TakenBy;
      var less := set i | 0 <= i < n && Arguments.Places(init)[i].InXmm?;
      forall i | 0 <= i < n ensures Arguments.Places(kinds)[i] == Arguments.Places(init)[i] { }
      assert all == if Arguments.Places(kinds)[n].InXmm? then less + {n} else less;
    }
  }

  /** The machine is about to call `name` with arguments of these kinds, each in its register or cell, and the number
      of vector registers among them in the low byte of rax. */
  ghost predicate AboutToPass(asm: seq<Asm>, x: XState, name: nat, kinds: seq<Arg>, ws: seq<Word>) {
    && x.Going? && x.pc < |asm| && asm[x.pc].CallName? && asm[x.pc].name == name
    && x.m.sp % 16 == 0 && |kinds| == |ws|
    && (RAX in x.m.gpr ==>
          x.m.gpr[RAX] % 256 == |set i | 0 <= i < |kinds| && Arguments.Places(kinds)[i].InXmm?|)
    && forall i: nat :: i < |ws| ==> ArgAt(x.m, kinds, i) == Some(ws[i])
  }

  lemma ByteSet(w: Word, n: nat)
    requires n < 256
    ensures PutByte(w, n) % 256 == n
  {
  }

  lemma VectorsSet(w: World, m: Machine, kinds: seq<Arg>, ws: seq<Word>, n: nat)
    requires |ws| == |kinds| && ArgsPassed(m, kinds, ws, |ws|) && n < 256
    ensures var m1 := Do(w, SetVectorCount(n), m);
            && m1.Some? && m1.value.sp == m.sp && (RAX in m1.value.gpr ==> m1.value.gpr[RAX] % 256 == n)
            && ArgsPassed(m1.value, kinds, ws, |ws|)
  {
    if RAX in m.gpr { ByteSet(m.gpr[RAX], n); }
    SetCountKeeps(w, m, kinds, ws, n);
    hide PutByte, ArgsPassed;
  }

  lemma PassIs(asm: seq<Asm>, p: nat, m: Machine, name: nat, kinds: seq<Arg>, ws: seq<Word>)
    requires p < |asm| && asm[p] == CallName(name, kinds) && |ws| == |kinds|
    requires m.sp % 16 == 0 && (RAX in m.gpr ==> m.gpr[RAX] % 256 == Arguments.TakenBy(kinds).fp)
    requires ArgsPassed(m, kinds, ws, |ws|)
    ensures AboutToPass(asm, Going(p, m), name, kinds, ws)
  {
    VectorsCounted(kinds);
    hide Arguments.Places, Arguments.TakenBy;
  }

  lemma FewVectors(kinds: seq<Arg>)
    ensures Arguments.TakenBy(kinds).fp <= 8
  {
    Arguments.CellsDistinct(kinds);
  }

  /** A direct call with arguments of any kind comes to its call instruction with all of them in place. */
  lemma AnyCallComes(u: Compilation, k: nat, d: Data, m: Machine, ws: seq<Word>) returns (n: nat)
    requires Good(u) && Related(u, k, d, m) && !(k > 0 && Fused(u.code, k - 1)) && k < |u.code|
    requires u.code[k].Call? && u.code[k].callee.Direct?
    requires Vals(d.regs, u.code[k].args) == Some(ws)
    ensures AboutToPass(Program(u), XSteps(u.w, Program(u), Going(Pos(u, k), m), n), u.code[k].callee.name,
                        Arguments.Kinds(u.code[k].kinds, |ws|), ws)
  {
    hide *;
    var m1 := CallPrepared(u, k, d, m, ws);
    var kinds := Arguments.Kinds(u.code[k].kinds, |ws|);
    FewVectors(kinds);
    VectorsSet(u.w, m1, kinds, ws, Arguments.TakenBy(kinds).fp);
    RunsUpTo(u, k, m, kinds);
    n := |UpToCall(u, u.code[k].args, kinds)|;
    PassIs(Program(u), Pos(u, k) + n, Do(u.w, SetVectorCount(Arguments.TakenBy(kinds).fp), m1).value,
           u.code[k].callee.name, kinds, ws);
  }

  // ----- calls of lowered code -----

  /** From any point where compiled code stands before a direct call without kinds, it comes to the call
      instruction, with every argument in the register or stack cell of an integer. */
  lemma CallReached(u: Compilation, s: State, x: XState, ws: seq<Word>) returns (n: nat)
    requires Good(u) && Standing(u, s, x) && s.pc < |u.code|
    requires var i := u.code[s.pc]; i.Call? && i.callee.Direct? && i.kinds == []
    requires Vals(s.data.regs, u.code[s.pc].args) == Some(ws)
    ensures AboutToCall(Program(u), XSteps(u.w, Program(u), x, n), u.code[s.pc].callee.name, ws)
  {
    hide *;
    StandingAt(u, s, x);
    n := CallComes(u, s.pc, s.data, x.m, ws);
  }

  lemma StandingAt(u: Compilation, s: State, x: XState)
    requires Standing(u, s, x)
    ensures s.Run? && x.Going? && x == Going(Pos(u, s.pc), x.m) && Related(u, s.pc, s.data, x.m)
    ensures !(s.pc > 0 && Fused(u.code, s.pc - 1))
  {
  }

  lemma PrefixOf(xs: seq<Asm>, y: Asm, b: seq<Asm>)
    requires xs + [y] <= b
    ensures xs <= b && |xs| < |b| && b[|xs|] == y
  {
    assert b[|xs|] == (xs + [y])[|xs|];
  }

  lemma InBlock(asm: seq<Asm>, p: nat, q: nat, n: nat)
    requires p + n < q <= |asm|
    ensures asm[p..q][n] == asm[p + n]
  {
  }

  lemma AboutIs(asm: seq<Asm>, p: nat, m: Machine, name: nat, kinds: seq<Arg>, ws: seq<Word>)
    requires p < |asm| && asm[p] == CallName(name, kinds)
    requires m.sp % 16 == 0 && (RAX in m.gpr ==> m.gpr[RAX] % 256 == 0)
    requires forall i :: 0 <= i < |ws| ==> HasInteger(m, i, ws[i])
    ensures AboutToCall(asm, Going(p, m), name, ws)
  {
    hide HasInteger;
  }

  // ----- into the callee -----

  /** What a callee of as many integer parameters stores from its cells are the arguments of the call. */
  lemma IntegersEnter(env: Env, asm: seq<Asm>, x: XState, name: nat, ws: seq<Word>, entry: Machine)
    requires AboutToCall(asm, x, name, ws) && Enters(x.m, entry)
    requires var cells := Arguments.CellsOf(false, Integers(|ws|));
             forall i :: 0 <= i < |cells| && i < |ws| ==> env.incoming(cells[i]) == ws[i]
    ensures var cells := Arguments.CellsOf(false, Integers(|ws|));
            |cells| == |ws| && forall i :: 0 <= i < |cells| ==> ArgArrived(env, entry, cells[i])
  {
    var cells := Arguments.CellsOf(false, Integers(|ws|));
    IntegerCells(|ws|);
    forall i | 0 <= i < |cells| ensures ArgArrived(env, entry, cells[i]) {
      assert HasInteger(x.m, i, ws[i]);
      if i >= 6 { assert x.m.sp + 8 * (i - 6) - x.m.sp + 16 == 16 + 8 * (i - 6); }
    }
  }

  /** In compiled functions no call says anything of kinds. */
  lemma CallsPlain(u: Compilation, params: seq<Lowering.Param>, body: Source.Stmt, size: nat, variadic: bool,
                   first: Label, rounds: nat, k: nat)
    requires LocalSlots.Declared(params, body, size)
    requires Compiler.CompiledFrom(u, params, body, size, variadic, first, rounds)
    requires k < |u.code| && u.code[k].Call?
    ensures u.code[k].kinds == []
  {
    hide *;
    var room := Compiler.Reserved(size, variadic);
    var code := Lowering.LowerFunction(params, body, room, first).code;
    Compiler.CompiledCodeOf(u, params, body, size, variadic, first, rounds);
    Compiler.StmtForm.FunctionHasForm(params, body, room, first);
    IterateKeepsForm(u.w.env, code, rounds);
    Compiler.ReservedEven(params, body, size, variadic);
    LocalSlots.FunctionTidy(params, body, room, first);
    PlainEverywhere(code, u.code, LocalSlots.ParamSlots(params) + LocalSlots.StmtLocals(body), room,
                    Lowering.LowerFunction(params, body, room, first).c.stack, k);
  }

  lemma PlainEverywhere(code: Code, q: Code, locals: set<int>, lo: nat, hi: nat, k: nat)
    requires NoNew(code, q) && LocalSlots.AllTidy(code, locals, lo, hi) && k < |q| && q[k].Call?
    ensures q[k].kinds == []
  {
    assert PassesKinds(q, q[k].kinds);
    var i :| 0 <= i < |code| && code[i].Call? && code[i].kinds == q[k].kinds;
    assert LocalSlots.Tidy(code[i], locals, lo, hi);
  }

  /** Wherever the machine code of a function stands before a call of a function by name, it comes to the call
      instruction with all arguments in place, after any number of optimisation rounds. */
  lemma LoweredCallReached(u: Compilation, params: seq<Lowering.Param>, body: Source.Stmt, size: nat, variadic: bool,
                           first: Label, rounds: nat, s: State, x: XState, ws: seq<Word>) returns (n: nat)
    requires LocalSlots.Declared(params, body, size) && Good(u) && Standing(u, s, x) && s.pc < |u.code|
    requires Compiler.CompiledFrom(u, params, body, size, variadic, first, rounds)
    requires u.code[s.pc].Call? && u.code[s.pc].callee.Direct? && Vals(s.data.regs, u.code[s.pc].args) == Some(ws)
    ensures AboutToCall(Program(u), XSteps(u.w, Program(u), x, n), u.code[s.pc].callee.name, ws)
  {
    hide *;
    StandingAt(u, s, x);
    CallsPlain(u, params, body, size, variadic, first, rounds, s.pc);
    n := CallReached(u, s, x, ws);
  }
}
