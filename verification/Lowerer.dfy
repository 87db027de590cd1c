/** The lowering as the compiler runs it: it appends to the function's instruction list and bumps the
    counters as it goes. Every method is proved to emit what the functions of `Lowering` say. */
module LoweringRun {
  import opened Word64
  import opened IR
  import opened Source
  import opened Lowering

  class Lowerer {
    var insts: Code
    var vregs: nat
    var labels: Label
    var stack: nat

    constructor (size: nat, first: Label)
      ensures insts == [] && Now() == Counters(1, first, size)
    {
      insts, vregs, labels, stack := [], 1, first, size;
    }

    function Now(): Counters
      reads this
    {
      Counters(vregs, labels, stack)
    }

    method Emit(i: Inst)
      modifies this`insts
      ensures insts == old(insts) + [i]
    {
      insts := insts + [i];
    }

    /** Several instructions, one behind the other. */
    method EmitAll(run: Code)
      modifies this`insts
      ensures insts == old(insts) + run
    {
      for i := 0 to |run|
        invariant insts == old(insts) + run[..i]
      {
        assert run[..i + 1] == run[..i] + [run[i]];
        Emit(run[i]);
      }
      assert run[..|run|] == run;
    }

    method NewReg() returns (r: nat)
      modifies this`vregs
      ensures r == old(vregs) && vregs == r + 1
    {
      r := vregs;
      vregs := vregs + 1;
    }

    method NewLabel() returns (l: Label)
      modifies this`labels
      ensures l == old(labels) && labels == l + 1
    {
      l := labels;
      labels := labels + 1;
    }

    // ----- expressions -----

    method Fetch(p: Place) returns (o: Opnd)
      modifies this`insts, this`vregs
      ensures insts == old(insts) + [Fetching(p, old(vregs))] && o == Reg(old(vregs)) && vregs == old(vregs) + 1
    {
      var d := NewReg();
      Emit(Fetching(p, d));
      o := Reg(d);
    }

    /** Emits an instruction that defines a new register from operands. */
    method Operate(op: BinOp, a: Opnd, b: Opnd) returns (o: Opnd)
      modifies this`insts, this`vregs
      ensures insts == old(insts) + [Bin(op, old(vregs), a, b)] && o == Reg(old(vregs)) && vregs == old(vregs) + 1
    {
      var d := NewReg();
      Emit(Bin(op, d, a, b));
      o := Reg(d);
    }

    method Decide(ghost e: Expr, conjunction: bool, l: Expr, r: Expr) returns (o: Opnd)
      requires l < e && r < e
      modifies this
      decreases e, 0
      ensures var a := LowerExpr(l, Deciding(old(Now())));
              var f := Decided(conjunction, old(Now()), a, LowerExpr(r, a.c));
              insts == old(insts) + f.code && o == f.o && Now() == f.c
    {
      hide LowerExpr;
      var early: Word := if conjunction then 0 else 1;
      var decided := NewLabel();
      var end := NewLabel();
      var d := NewReg();
      o := Reg(d);
      var left := Expression(l);
      Emit(JmpIf(!conjunction, left, decided));
      var right := Expression(r);
      EmitAll([JmpIf(!conjunction, right, decided), Const(d, 1 - early), Jmp(end), Mark(decided), Const(d, early),
               Mark(end)]);
    }

    method Choose(ghost e: Expr, x: Expr, l: Expr, r: Expr) returns (o: Opnd)
      requires x < e && l < e && r < e
      modifies this
      decreases e, 0
      ensures var a := LowerExpr(x, Choosing(old(Now())));
              var b := LowerExpr(l, a.c);
              var f := Chosen(old(Now()), a, b, LowerExpr(r, b.c));
              insts == old(insts) + f.code && o == f.o && Now() == f.c
    {
      hide LowerExpr;
      var otherwise := NewLabel();
      var end := NewLabel();
      stack := stack + 8;
      var slot: int := -(stack as int);
      var cond := Expression(x);
      Emit(JmpIf(false, cond, otherwise));
      var value := Expression(l);
      EmitAll([StoreStack(slot, value), Jmp(end), Mark(otherwise)]);
      value := Expression(r);
      EmitAll([StoreStack(slot, value), Mark(end)]);
      var d := NewReg();
      Emit(LoadStack(d, slot));
      o := Reg(d);
    }

    method Unary(e: Expr) returns (o: Opnd)
      requires e.Neg? || e.Inv? || e.LogNot? || e.Deref?
      modifies this
      decreases e, 0
      ensures var f := LowerExpr(e, old(Now())); insts == old(insts) + f.code && o == f.o && Now() == f.c
    {
      match e
      case Neg(x) =>
        if x.Neg? {
          o := Expression(x.e);
        } else {
          var a := Expression(x);
          o := Operate(Sub, Imm(0), a);
        }
      case Inv(x) =>
        if x.Inv? {
          o := Expression(x.e);
        } else {
          var a := Expression(x);
          o := Operate(Xor, a, Imm(-1));
        }
      case LogNot(x) =>
        var a := Expression(x);
        o := Operate(CmpEq, a, Imm(0));
      case Deref(p) =>
        var a := Expression(p);
        var d := NewReg();
        Emit(Load(d, a, 0, 8, false));
        o := Reg(d);
    }

    method Infix(e: Expr) returns (o: Opnd)
      requires e.Binary? || e.Comma?
      modifies this
      decreases e, 0
      ensures var f := LowerExpr(e, old(Now())); insts == old(insts) + f.code && o == f.o && Now() == f.c
    {
      match e
      case Binary(op, l, r) =>
        var a := Expression(l);
        if op.Sub? && r.Neg? {
          var b := Expression(r.e);
          o := Operate(Add, a, b);
        } else {
          var b := Expression(r);
          o := Operate(op, a, b);
        }
      case Comma(l, r) =>
        var _ := Expression(l);
        o := Expression(r);
    }

    method Storing(e: Expr) returns (o: Opnd)
      requires e.Assign? || e.AssignVia? || e.Update? || e.Bump?
      modifies this
      decreases e, 0
      ensures var f := LowerExpr(e, old(Now())); insts == old(insts) + f.code && o == f.o && Now() == f.c
    {
      hide LowerExpr;
      LowerStoring(e, Now());
      match e
      case Assign(p, x) =>
        o := Expression(x);
        Emit(Putting(p, o));
      case AssignVia(p, x) =>
        o := Expression(x);
        var q := Expression(p);
        Emit(IR.Store(q, 0, o, 8));
      case Update(op, p, x) =>
        var a := Expression(x);
        var cur := Fetch(p);
        o := Operate(op, cur, a);
        Emit(Putting(p, o));
      case Bump(up, prefix, p) =>
        var before := Fetch(p);
        var after := Operate(if up then Add else Sub, before, Imm(1));
        Emit(Putting(p, after));
        o := if prefix then after else before;
    }

    method Expression(e: Expr) returns (o: Opnd)
      modifies this
      decreases e, 1
      ensures var f := LowerExpr(e, old(Now())); insts == old(insts) + f.code && o == f.o && Now() == f.c
    {
      match e
      case Lit(n) =>
        var d := NewReg();
        Emit(Const(d, n));
        o := Reg(d);
      case Var(p) => o := Fetch(p);
      case Addr(p) =>
        var d := NewReg();
        Emit(Addressing(p, d));
        o := Reg(d);
      case LogAnd(l, r) => o := Decide(e, true, l, r);
      case LogOr(l, r) => o := Decide(e, false, l, r);
      case Conditional(x, l, r) => o := Choose(e, x, l, r);
      case Neg(_) => o := Unary(e);
      case Inv(_) => o := Unary(e);
      case LogNot(_) => o := Unary(e);
      case Deref(_) => o := Unary(e);
      case Binary(_, _, _) => o := Infix(e);
      case Comma(_, _) => o := Infix(e);
      case Assign(_, _) => o := Storing(e);
      case AssignVia(_, _) => o := Storing(e);
      case Update(_, _, _) => o := Storing(e);
      case Bump(_, _, _) => o := Storing(e);
      case Invoke(name, args) => o := Call(name, args);
    }

    /** A call: the arguments from left to right, then the register of the result. */
    method Call(name: nat, args: Exprs) returns (o: Opnd)
      modifies this
      decreases args
      ensures var f := Invoking(name, LowerArgs(args, old(Now())));
              insts == old(insts) + f.code && o == f.o && Now() == f.c
    {
      hide LowerExpr, LowerArgs;
      ghost var all := LowerArgs(args, Now());
      var rest, ops := args, [];
      while rest.MoreExprs?
        invariant rest == args || rest < args
        invariant var f := LowerArgs(rest, Now());
                  insts + f.code == old(insts) + all.code && ops + f.ops == all.ops && f.c == all.c
        decreases rest
      {
        LowerNextArg(rest, Now());
        ghost var f := LowerArgs(rest, Now());
        ghost var before, given := insts, ops;
        var a := Expression(rest.head);
        ops := ops + [a];
        rest := rest.tail;
        assert insts + LowerArgs(rest, Now()).code == before + f.code;
        assert ops + LowerArgs(rest, Now()).ops == given + f.ops;
      }
      LowerNoArg(rest, Now());
      assert insts + [] == insts && ops + [] == ops;
      var d := NewReg();
      Emit(IR.Call(d, Direct(name), ops, []));
      o := Reg(d);
    }

    // ----- statements -----

    method Leave(l: Option<Label>)
      modifies this`insts
      ensures insts == old(insts) + JumpOut(l)
    {
      if l.Some? { Emit(Jmp(l.value)); }
    }

    method Check(test: Option<Expr>, end: Label)
      modifies this
      ensures var f := LowerTest(test, end, old(Now())); insts == old(insts) + f.code && Now() == f.c
    {
      if test.Some? {
        var cond := Expression(test.value);
        Emit(JmpIf(false, cond, end));
      }
    }

    method Advance(step: Option<Expr>)
      modifies this
      ensures var f := LowerStep(step, old(Now())); insts == old(insts) + f.code && Now() == f.c
    {
      if step.Some? { var _ := Expression(step.value); }
    }

    method ForLoop(test: Option<Expr>, step: Option<Expr>, body: Stmt, start: Label, next: Label, end: Label)
      requires next == start + 1 && end == start + 2
      modifies this
      decreases body, 2
      ensures var f := LowerLoop(test, step, body, start, old(Now())); insts == old(insts) + f.code && Now() == f.c
    {
      hide LowerExpr, LowerStmt, LowerTest, LowerStep;
      Emit(Mark(start));
      Check(test, end);
      Statement(body, Some(end), Some(next));
      Emit(Mark(next));
      Advance(step);
      EmitAll([Jmp(start), Mark(end)]);
    }

    /** The comparisons of a switch, case by case. */
    method Compare(cases: Cases, value: Opnd) returns (marks: seq<Label>, fallback: Option<Label>)
      modifies this
      decreases cases
      ensures var t := LowerTests(cases, value, old(Now()));
              insts == old(insts) + t.code && marks == t.labels && fallback == t.fallback && Now() == t.c
    {
      hide LowerExpr, LowerTests;
      LowerCase(cases, value, Now());
      if cases.NoCase? {
        marks, fallback := [], None;
      } else {
        var l := NewLabel();
        if cases.value.Some? {
          var v := Expression(cases.value.value);
          var equal := Operate(CmpEq, value, v);
          Emit(JmpIf(true, equal, l));
        }
        marks, fallback := Compare(cases.rest, value);
        marks := [l] + marks;
        if cases.value.None? && fallback.None? { fallback := Some(l); }
      }
    }

    method Bodies(cases: Cases, marks: seq<Label>, end: Label, cont: Option<Label>)
      requires |marks| == Count(cases)
      modifies this
      decreases cases, 1
      ensures var f := LowerBodies(cases, marks, old(Now()), end, cont); insts == old(insts) + f.code && Now() == f.c
    {
      if cases.Case? {
        Emit(Mark(marks[0]));
        Statements(cases.stmts, Some(end), cont);
        Bodies(cases.rest, marks[1..], end, cont);
      }
    }

    method Statements(ss: Stmts, brk: Option<Label>, cont: Option<Label>)
      modifies this
      decreases ss
      ensures var f := LowerAll(ss, old(Now()), brk, cont); insts == old(insts) + f.code && Now() == f.c
    {
      hide LowerStmt, LowerAll;
      var rest := ss;
      ghost var all := LowerAll(ss, Now(), brk, cont);
      while rest.Cons?
        invariant rest == ss || rest < ss
        invariant var f := LowerAll(rest, Now(), brk, cont); insts + f.code == old(insts) + all.code && f.c == all.c
        decreases rest
      {
        LowerNext(rest, Now(), brk, cont);
        ghost var f := LowerAll(rest, Now(), brk, cont);
        ghost var before := insts;
        Statement(rest.head, brk, cont);
        rest := rest.tail;
        assert insts + LowerAll(rest, Now(), brk, cont).code == before + f.code;
      }
      LowerNone(rest, Now(), brk, cont);
      assert insts + [] == insts;
    }

    method Branch(st: Stmt, brk: Option<Label>, cont: Option<Label>)
      requires st.If?
      modifies this
      decreases st, 0
      ensures var f := LowerStmt(st, old(Now()), brk, cont); insts == old(insts) + f.code && Now() == f.c
    {
      hide LowerExpr, LowerStmt;
      LowerIf(st, Now(), brk, cont);
      var otherwise := labels;
      if st.no.Some? { otherwise := NewLabel(); }
      var end := NewLabel();
      var cond := Expression(st.cond);
      Emit(JmpIf(false, cond, otherwise));
      Statement(st.yes, brk, cont);
      if st.no.Some? {
        EmitAll([Jmp(end), Mark(otherwise)]);
        Statement(st.no.value, brk, cont);
      }
      Emit(Mark(end));
    }

    method Repeat(st: Stmt, brk: Option<Label>, cont: Option<Label>)
      requires st.While? || st.DoWhile?
      modifies this
      decreases st, 0
      ensures var f := LowerStmt(st, old(Now()), brk, cont); insts == old(insts) + f.code && Now() == f.c
    {
      hide LowerExpr, LowerStmt;
      LowerRepeat(st, Now(), brk, cont);
      var start := NewLabel();
      if st.While? {
        var end := NewLabel();
        Emit(Mark(start));
        var cond := Expression(st.cond);
        Emit(JmpIf(false, cond, end));
        Statement(st.body1, Some(end), Some(start));
        EmitAll([Jmp(start), Mark(end)]);
      } else {
        var check := NewLabel();
        var end := NewLabel();
        Emit(Mark(start));
        Statement(st.body1, Some(end), Some(check));
        Emit(Mark(check));
        var cond := Expression(st.cond);
        EmitAll([JmpIf(true, cond, start), Mark(end)]);
      }
    }

    method Cases(st: Stmt, brk: Option<Label>, cont: Option<Label>)
      requires st.Switch?
      modifies this
      decreases st, 0
      ensures var f := LowerStmt(st, old(Now()), brk, cont); insts == old(insts) + f.code && Now() == f.c
    {
      hide LowerExpr, LowerStmt, LowerTests, LowerBodies;
      LowerSwitch(st, Now(), brk, cont);
      var end := NewLabel();
      var value := Expression(st.e);
      var marks, fallback := Compare(st.cases, value);
      Emit(Jmp(if fallback.Some? then fallback.value else end));
      Bodies(st.cases, marks, end, cont);
      Emit(Mark(end));
    }

    method WholeFor(st: Stmt, brk: Option<Label>, cont: Option<Label>)
      requires st.For?
      modifies this
      decreases st, 0
      ensures var f := LowerStmt(st, old(Now()), brk, cont); insts == old(insts) + f.code && Now() == f.c
    {
      hide LowerStmt, LowerLoop;
      LowerFor(st, Now(), brk, cont);
      var start := NewLabel();
      var next := NewLabel();
      var end := NewLabel();
      if st.start.Some? { Statement(st.start.value, brk, cont); }
      ForLoop(st.test, st.step, st.body1, start, next, end);
    }

    method Statement(st: Stmt, brk: Option<Label>, cont: Option<Label>)
      modifies this
      decreases st, 1
      ensures var f := LowerStmt(st, old(Now()), brk, cont); insts == old(insts) + f.code && Now() == f.c
    {
      hide LowerExpr, LowerAll;
      match st
      case ExprStmt(e) =>
        var _ := Expression(e);
      case VarDecl(k, init) =>
        if init.Some? {
          var a := Expression(init.value);
          Emit(StoreStack(k, a));
        }
      case Block(body) =>
        Statements(body, brk, cont);
      case If(_, _, _) =>
        Branch(st, brk, cont);
      case While(_, _) =>
        Repeat(st, brk, cont);
      case DoWhile(_, _) =>
        Repeat(st, brk, cont);
      case For(_, _, _, _) =>
        WholeFor(st, brk, cont);
      case Switch(_, _) =>
        Cases(st, brk, cont);
      case Break =>
        Leave(brk);
      case Continue =>
        Leave(cont);
      case Return(v) =>
        var value := Imm(0);
        if v.Some? { value := Expression(v.value); }
        Emit(Ret(value));
    }
  }

  /** The whole function: parameters first, then the body, then a return if the body does not end in one. */
  method Lower(params: seq<Param>, body: Stmt, size: nat, first: Label) returns (code: Code, ghost c: Counters)
    ensures code == LowerFunction(params, body, size, first).code
  {
    var l := new Lowerer(size, first);
    for i := 0 to |params|
      invariant fresh(l) && l.insts == StoreParams(params)[..i] && l.Now() == Counters(1, first, size)
    {
      l.Emit(StoreArg(params[i].slot, params[i].arg));
    }
    assert StoreParams(params)[..|params|] == StoreParams(params);
    l.Statement(body, None, None);
    c := l.Now();
    if l.insts == [] || !l.insts[|l.insts| - 1].Ret? { l.Emit(Ret(Imm(0))); }
    code := l.insts;
  }
}
