/** Lowering of expressions and statements to the three-address IR (`lower_expr`, `lower_stmt`,
    `lower_function`).

    The functions say which instructions a construct becomes, given the counters of virtual registers,
    labels and stack bytes; the class `Lowerer` emits them one by one, as the compiler does. */
module Lowering {
  import opened Word64
  import opened IR
  import opened Source

  datatype Counters = Counters(vreg: nat, lab: Label, stack: nat)

  /** Emitted code, the operand that holds the value, and the counters behind it. */
  datatype Fragment = Fragment(code: Code, o: Opnd, c: Counters)

  datatype Part = Part(code: Code, c: Counters)

  /** Emitted code and the operands that hold the arguments of a call. */
  datatype Passing = Passing(code: Code, ops: seq<Opnd>, c: Counters)

  function Fetching(p: Place, d: nat): Inst {
    match p
    case Local(k) => LoadStack(d, k)
    case Global(g) => LoadGlobal(d, g, 8, false)
  }

  function Addressing(p: Place, d: nat): Inst {
    match p
    case Local(k) => AddrStack(d, k)
    case Global(g) => AddrGlobal(d, g)
  }

  function Putting(p: Place, o: Opnd): Inst {
    match p
    case Local(k) => StoreStack(k, o)
    case Global(g) => StoreGlobal(g, o, 8)
  }

  function NextReg(c: Counters): Counters {
    c.(vreg := c.vreg + 1)
  }

  function NextLabels(c: Counters, n: nat): Counters {
    c.(lab := c.lab + n)
  }

  /** `code`, then one instruction that defines the next register. */
  function Then(f: Fragment, i: Inst): Fragment {
    Fragment(f.code + [i], Reg(f.c.vreg), NextReg(f.c))
  }

  /** Both operands, left first, then the operation. */
  function Operated(op: BinOp, a: Fragment, b: Fragment): Fragment {
    Fragment(a.code + b.code + [Bin(op, b.c.vreg, a.o, b.o)], Reg(b.c.vreg), NextReg(b.c))
  }

  /** The counters with which the operands of `&&` and `||` are lowered: result and labels come first. */
  function Deciding(c: Counters): Counters {
    Counters(c.vreg + 1, c.lab + 2, c.stack)
  }

  /** `&&` (conjunction) or `||` with operands `a` and `b`: the operand that decides jumps over the other. */
  function Decided(conjunction: bool, c: Counters, a: Fragment, b: Fragment): Fragment {
    var early: Word := if conjunction then 0 else 1;
    Fragment(a.code + [JmpIf(!conjunction, a.o, c.lab)] + b.code + [JmpIf(!conjunction, b.o, c.lab)]
             + [Const(c.vreg, 1 - early), Jmp(c.lab + 1), Mark(c.lab), Const(c.vreg, early), Mark(c.lab + 1)],
             Reg(c.vreg), b.c)
  }

  /** The counters for the operands of `?:`: two labels and a temporary slot come first. */
  function Choosing(c: Counters): Counters {
    Counters(c.vreg, c.lab + 2, c.stack + 8)
  }

  /** `?:` with condition `a` and branches `b` and `d`, which meet in a temporary slot. */
  function Chosen(c: Counters, a: Fragment, b: Fragment, d: Fragment): Fragment {
    var slot := -(c.stack + 8);
    Fragment(a.code + [JmpIf(false, a.o, c.lab)]
             + b.code + [StoreStack(slot, b.o), Jmp(c.lab + 1), Mark(c.lab)]
             + d.code + [StoreStack(slot, d.o), Mark(c.lab + 1), LoadStack(d.c.vreg, slot)],
             Reg(d.c.vreg), NextReg(d.c))
  }

  /** `p op= x` with the value of `x` in `a`: the value first, then the current content. */
  function Updated(op: BinOp, p: Place, a: Fragment): Fragment {
    var cur, res := a.c.vreg, a.c.vreg + 1;
    Fragment(a.code + [Fetching(p, cur), Bin(op, res, Reg(cur), a.o), Putting(p, Reg(res))], Reg(res),
             a.c.(vreg := a.c.vreg + 2))
  }

  function Bumped(up: bool, prefix: bool, p: Place, c: Counters): Fragment {
    var before, after := c.vreg, c.vreg + 1;
    Fragment([Fetching(p, before), Bin(if up then Add else Sub, after, Reg(before), Imm(1)), Putting(p, Reg(after))],
             Reg(if prefix then after else before), c.(vreg := c.vreg + 2))
  }

  /** A call behind its arguments. */
  function Invoking(name: nat, a: Passing): Fragment {
    Fragment(a.code + [IR.Call(a.c.vreg, Direct(name), a.ops, [])], Reg(a.c.vreg), NextReg(a.c))
  }

  function LowerExpr(e: Expr, c: Counters): (f: Fragment)
    ensures f.o.Reg? && c.vreg <= f.o.v < f.c.vreg && c.lab <= f.c.lab && c.stack <= f.c.stack
    decreases e
  {
    match e
    case Lit(n) => Fragment([Const(c.vreg, n)], Reg(c.vreg), NextReg(c))
    case Var(p) => Fragment([Fetching(p, c.vreg)], Reg(c.vreg), NextReg(c))
    case Addr(p) => Fragment([Addressing(p, c.vreg)], Reg(c.vreg), NextReg(c))
    case Deref(p) =>
      var a := LowerExpr(p, c);
      Then(a, Load(a.c.vreg, a.o, 0, 8, false))
    case Neg(x) =>
      if x.Neg? then LowerExpr(x.e, c)
      else
        var a := LowerExpr(x, c);
        Then(a, Bin(Sub, a.c.vreg, Imm(0), a.o))
    case Inv(x) =>
      if x.Inv? then LowerExpr(x.e, c)
      else
        var a := LowerExpr(x, c);
        Then(a, Bin(Xor, a.c.vreg, a.o, Imm(-1)))
    case LogNot(x) =>
      var a := LowerExpr(x, c);
      Then(a, Bin(CmpEq, a.c.vreg, a.o, Imm(0)))
    case Binary(op, l, r) =>
      var a := LowerExpr(l, c);
      if op.Sub? && r.Neg? then Operated(Add, a, LowerExpr(r.e, a.c)) else Operated(op, a, LowerExpr(r, a.c))
    case LogAnd(l, r) =>
      var a := LowerExpr(l, Deciding(c));
      Decided(true, c, a, LowerExpr(r, a.c))
    case LogOr(l, r) =>
      var a := LowerExpr(l, Deciding(c));
      Decided(false, c, a, LowerExpr(r, a.c))
    case Conditional(x, l, r) =>
      var a := LowerExpr(x, Choosing(c));
      var b := LowerExpr(l, a.c);
      Chosen(c, a, b, LowerExpr(r, b.c))
    case Comma(l, r) =>
      var a := LowerExpr(l, c);
      var b := LowerExpr(r, a.c);
      Fragment(a.code + b.code, b.o, b.c)
    case Assign(p, x) =>
      var a := LowerExpr(x, c);
      Fragment(a.code + [Putting(p, a.o)], a.o, a.c)
    case AssignVia(p, x) =>
      var a := LowerExpr(x, c);
      var b := LowerExpr(p, a.c);
      Fragment(a.code + b.code + [IR.Store(b.o, 0, a.o, 8)], a.o, b.c)
    case Update(op, p, x) => Updated(op, p, LowerExpr(x, c))
    case Bump(up, prefix, p) => Bumped(up, prefix, p, c)
    case Invoke(name, args) => Invoking(name, LowerArgs(args, c))
  }

  function LowerArgs(es: Exprs, c: Counters): (f: Passing)
    ensures c.vreg <= f.c.vreg && c.lab <= f.c.lab && c.stack <= f.c.stack
    ensures forall i :: 0 <= i < |f.ops| ==> f.ops[i].Reg? && c.vreg <= f.ops[i].v < f.c.vreg
    decreases es
  {
    if es.NoExpr? then Passing([], [], c)
    else
      var a := LowerExpr(es.head, c);
      var b := LowerArgs(es.tail, a.c);
      Passing(a.code + b.code, [a.o] + b.ops, b.c)
  }

  lemma LowerNextArg(es: Exprs, c: Counters)
    requires es.MoreExprs?
    ensures var a := LowerExpr(es.head, c);
            var b := LowerArgs(es.tail, a.c);
            LowerArgs(es, c) == Passing(a.code + b.code, [a.o] + b.ops, b.c)
  {
  }

  lemma LowerNoArg(es: Exprs, c: Counters)
    requires es.NoExpr?
    ensures LowerArgs(es, c) == Passing([], [], c)
  {
  }

  lemma LowerStoring(e: Expr, c: Counters)
    ensures e.Assign? ==> var a := LowerExpr(e.e, c);
            LowerExpr(e, c) == Fragment(a.code + [Putting(e.place, a.o)], a.o, a.c)
    ensures e.AssignVia? ==>
              var a := LowerExpr(e.e, c);
              var b := LowerExpr(e.pointer, a.c);
              LowerExpr(e, c) == Fragment(a.code + b.code + [IR.Store(b.o, 0, a.o, 8)], a.o, b.c)
    ensures e.Update? ==> LowerExpr(e, c) == Updated(e.cop, e.place, LowerExpr(e.e, c))
    ensures e.Bump? ==> LowerExpr(e, c) == Bumped(e.up, e.prefix, e.place, c)
  {
  }

  // ----- statements -----

  function JumpOut(l: Option<Label>): Code {
    if l.Some? then [Jmp(l.value)] else []
  }

  /** `if` without an `else`, its condition in `a` and its branch in `b`. */
  function IfThen(c: Counters, a: Fragment, b: Part): Part {
    Part(a.code + [JmpIf(false, a.o, c.lab)] + b.code + [Mark(c.lab)], b.c)
  }

  function IfElse(c: Counters, a: Fragment, b: Part, d: Part): Part {
    Part(a.code + [JmpIf(false, a.o, c.lab)] + b.code + [Jmp(c.lab + 1), Mark(c.lab)] + d.code + [Mark(c.lab + 1)], d.c)
  }

  function Whiled(c: Counters, a: Fragment, b: Part): Part {
    Part([Mark(c.lab)] + a.code + [JmpIf(false, a.o, c.lab + 1)] + b.code + [Jmp(c.lab), Mark(c.lab + 1)], b.c)
  }

  function DoWhiled(c: Counters, b: Part, a: Fragment): Part {
    Part([Mark(c.lab)] + b.code + [Mark(c.lab + 1)] + a.code + [JmpIf(true, a.o, c.lab), Mark(c.lab + 2)], a.c)
  }

  /** The loop of a `for` statement, labelled `l` (start), `l + 1` (step) and `l + 2` (end). */
  function Looped(l: Label, test: Part, body: Part, step: Part): Part {
    Part([Mark(l)] + test.code + body.code + [Mark(l + 1)] + step.code + [Jmp(l), Mark(l + 2)], step.c)
  }

  /** `switch` on `a`: the tests, a jump to the default or the end, and the bodies. */
  function Switched(end: Label, a: Fragment, t: Tests, b: Part): Part {
    Part(a.code + t.code + [Jmp(if t.fallback.Some? then t.fallback.value else end)] + b.code + [Mark(end)], b.c)
  }

  function LowerStmt(st: Stmt, c: Counters, brk: Option<Label>, cont: Option<Label>): (f: Part)
    ensures c.vreg <= f.c.vreg && c.lab <= f.c.lab && c.stack <= f.c.stack
    decreases st, 0
  {
    match st
    case ExprStmt(e) => var a := LowerExpr(e, c); Part(a.code, a.c)
    case VarDecl(k, init) =>
      if init.None? then Part([], c)
      else
        var a := LowerExpr(init.value, c);
        Part(a.code + [StoreStack(k, a.o)], a.c)
    case Block(body) => LowerAll(body, c, brk, cont)
    case If(x, yes, no) =>
      var a := LowerExpr(x, NextLabels(c, if no.None? then 1 else 2));
      var b := LowerStmt(yes, a.c, brk, cont);
      if no.None? then IfThen(c, a, b) else IfElse(c, a, b, LowerStmt(no.value, b.c, brk, cont))
    case While(x, body) =>
      var a := LowerExpr(x, NextLabels(c, 2));
      Whiled(c, a, LowerStmt(body, a.c, Some(c.lab + 1), Some(c.lab)))
    case DoWhile(body, x) =>
      var b := LowerStmt(body, NextLabels(c, 3), Some(c.lab + 2), Some(c.lab + 1));
      DoWhiled(c, b, LowerExpr(x, b.c))
    case For(start, test, step, body) =>
      var i := if start.Some? then LowerStmt(start.value, NextLabels(c, 3), brk, cont) else Part([], NextLabels(c, 3));
      var l := LowerLoop(test, step, body, c.lab, i.c);
      Part(i.code + l.code, l.c)
    case Switch(e, cases) =>
      var a := LowerExpr(e, NextLabels(c, 1));
      var t := LowerTests(cases, a.o, a.c);
      var b := LowerBodies(cases, t.labels, t.c, c.lab, cont);
      Switched(c.lab, a, t, b)
    case Break => Part(JumpOut(brk), c)
    case Continue => Part(JumpOut(cont), c)
    case Return(v) =>
      if v.None? then Part([Ret(Imm(0))], c)
      else
        var a := LowerExpr(v.value, c);
        Part(a.code + [Ret(a.o)], a.c)
  }

  // The cases of LowerStmt that hold statements, one by one.

  lemma LowerIf(st: Stmt, c: Counters, brk: Option<Label>, cont: Option<Label>)
    requires st.If?
    ensures var a := LowerExpr(st.cond, NextLabels(c, if st.no.None? then 1 else 2));
            var b := LowerStmt(st.yes, a.c, brk, cont);
            LowerStmt(st, c, brk, cont) == if st.no.None? then IfThen(c, a, b)
                        else IfElse(c, a, b, LowerStmt(st.no.value, b.c, brk, cont))
  {
  }

  lemma LowerNext(ss: Stmts, c: Counters, brk: Option<Label>, cont: Option<Label>)
    requires ss.Cons?
    ensures var a := LowerStmt(ss.head, c, brk, cont);
            var b := LowerAll(ss.tail, a.c, brk, cont);
            LowerAll(ss, c, brk, cont) == Part(a.code + b.code, b.c)
  {
  }

  lemma LowerNone(ss: Stmts, c: Counters, brk: Option<Label>, cont: Option<Label>)
    requires ss.Nil?
    ensures LowerAll(ss, c, brk, cont) == Part([], c)
  {
  }

  lemma LowerSwitch(st: Stmt, c: Counters, brk: Option<Label>, cont: Option<Label>)
    requires st.Switch?
    ensures var a := LowerExpr(st.e, NextLabels(c, 1));
            var t := LowerTests(st.cases, a.o, a.c);
            LowerStmt(st, c, brk, cont) == Switched(c.lab, a, t, LowerBodies(st.cases, t.labels, t.c, c.lab, cont))
  {
  }

  lemma LowerRepeat(st: Stmt, c: Counters, brk: Option<Label>, cont: Option<Label>)
    ensures st.While? ==>
              var a := LowerExpr(st.cond, NextLabels(c, 2));
              LowerStmt(st, c, brk, cont) == Whiled(c, a, LowerStmt(st.body1, a.c, Some(c.lab + 1), Some(c.lab)))
    ensures st.DoWhile? ==>
              var b := LowerStmt(st.body1, NextLabels(c, 3), Some(c.lab + 2), Some(c.lab + 1));
              LowerStmt(st, c, brk, cont) == DoWhiled(c, b, LowerExpr(st.cond, b.c))
  {
  }

  lemma LowerCase(cases: Cases, value: Opnd, c: Counters)
    ensures cases.NoCase? ==> LowerTests(cases, value, c) == Tests([], [], None, c)
    ensures cases.Case? && cases.value.None? ==>
              var t := LowerTests(cases.rest, value, NextLabels(c, 1));
              LowerTests(cases, value, c) == Tests(t.code, [c.lab] + t.labels, if t.fallback.Some? then t.fallback
                          else Some(c.lab), t.c)
    ensures cases.Case? && cases.value.Some? ==>
              var a := LowerExpr(cases.value.value, NextLabels(c, 1));
              var t := LowerTests(cases.rest, value, NextReg(a.c));
              LowerTests(cases, value, c)
              == Tests(a.code + [Bin(CmpEq, a.c.vreg, value, a.o), JmpIf(true, Reg(a.c.vreg), c.lab)] + t.code,
                       [c.lab] + t.labels, t.fallback, t.c)
  {
  }

  lemma LowerFor(st: Stmt, c: Counters, brk: Option<Label>, cont: Option<Label>)
    requires st.For?
    ensures var i := if st.start.Some? then LowerStmt(st.start.value, NextLabels(c, 3), brk, cont)
                else Part([], NextLabels(c, 3));
            var l := LowerLoop(st.test, st.step, st.body1, c.lab, i.c);
            LowerStmt(st, c, brk, cont) == Part(i.code + l.code, l.c)
  {
  }

  function LowerAll(ss: Stmts, c: Counters, brk: Option<Label>, cont: Option<Label>): (f: Part)
    ensures c.vreg <= f.c.vreg && c.lab <= f.c.lab && c.stack <= f.c.stack
    decreases ss, 0
  {
    if ss.Nil? then Part([], c)
    else
      var a := LowerStmt(ss.head, c, brk, cont);
      var b := LowerAll(ss.tail, a.c, brk, cont);
      Part(a.code + b.code, b.c)
  }

  /** The test of a `for` statement, if it has one. */
  function LowerTest(test: Option<Expr>, end: Label, c: Counters): (f: Part)
    ensures c.vreg <= f.c.vreg && c.lab <= f.c.lab && c.stack <= f.c.stack
  {
    if test.None? then Part([], c)
    else
      var a := LowerExpr(test.value, c);
      Part(a.code + [JmpIf(false, a.o, end)], a.c)
  }

  function LowerStep(step: Option<Expr>, c: Counters): (f: Part)
    ensures c.vreg <= f.c.vreg && c.lab <= f.c.lab && c.stack <= f.c.stack
  {
    if step.None? then Part([], c) else var a := LowerExpr(step.value, c); Part(a.code, a.c)
  }

  function LowerLoop(test: Option<Expr>, step: Option<Expr>, body: Stmt, l: Label, c: Counters): (f: Part)
    ensures c.vreg <= f.c.vreg && c.lab <= f.c.lab && c.stack <= f.c.stack
    decreases body, 1
  {
    var a := LowerTest(test, l + 2, c);
    var b := LowerStmt(body, a.c, Some(l + 2), Some(l + 1));
    Looped(l, a, b, LowerStep(step, b.c))
  }

  /** The comparisons of a switch, the labels of its cases and the label of its last default. */
  datatype Tests = Tests(code: Code, labels: seq<Label>, fallback: Option<Label>, c: Counters)

  function LowerTests(cases: Cases, value: Opnd, c: Counters): (t: Tests)
    ensures |t.labels| == Count(cases)
    ensures c.vreg <= t.c.vreg && c.lab <= t.c.lab && c.stack <= t.c.stack
  {
    if cases.NoCase? then Tests([], [], None, c)
    else if cases.value.None? then
      var t := LowerTests(cases.rest, value, NextLabels(c, 1));
      Tests(t.code, [c.lab] + t.labels, if t.fallback.Some? then t.fallback else Some(c.lab), t.c)
    else
      var a := LowerExpr(cases.value.value, NextLabels(c, 1));
      var equal := a.c.vreg;
      var t := LowerTests(cases.rest, value, NextReg(a.c));
      Tests(a.code + [Bin(CmpEq, equal, value, a.o), JmpIf(true, Reg(equal), c.lab)] + t.code, [c.lab] + t.labels,
            t.fallback, t.c)
  }

  function LowerBodies(cases: Cases, labels: seq<Label>, c: Counters, end: Label, cont: Option<Label>): (f: Part)
    requires |labels| == Count(cases)
    ensures c.vreg <= f.c.vreg && c.lab <= f.c.lab && c.stack <= f.c.stack
    decreases cases, 0
  {
    if cases.NoCase? then Part([], c)
    else
      var a := LowerAll(cases.stmts, c, Some(end), cont);
      var b := LowerBodies(cases.rest, labels[1..], a.c, end, cont);
      Part([Mark(labels[0])] + a.code + b.code, b.c)
  }

  // ----- functions -----

  /** A parameter: where it lives and where it arrives. */
  datatype Param = Param(slot: int, arg: Incoming)

  function StoreParams(params: seq<Param>): (code: Code)
    ensures |code| == |params|
    ensures forall i :: 0 <= i < |params| ==> code[i] == StoreArg(params[i].slot, params[i].arg)
  {
    seq(|params|, i requires 0 <= i < |params| => StoreArg(params[i].slot, params[i].arg))
  }

  /** A body that does not end in a return gets one. */
  function FinalReturn(code: Code): Code {
    if code != [] && code[|code| - 1].Ret? then [] else [Ret(Imm(0))]
  }

  /** A function: the counters start at register 1, the module's next label and the bytes of its locals. */
  function LowerFunction(params: seq<Param>, body: Stmt, size: nat, first: Label): Part {
    var p := StoreParams(params);
    var b := LowerStmt(body, Counters(1, first, size), None, None);
    Part(p + b.code + FinalReturn(p + b.code), b.c)
  }
}
