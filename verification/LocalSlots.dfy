/** The stack slots of a lowered function: its locals, and temporaries below them. */
module LocalSlots {
  import opened Word64
  import opened IR
  import opened LoweredForm
  import opened Source
  import opened Lowering
  import opened ExprMeaning
  import opened StmtMeaning
  import RegAlloc

  // ----- the locals a body names -----

  function PlaceLocals(p: Place): set<int> {
    if p.Local? then {p.k} else {}
  }

  function ExprLocals(e: Expr): set<int> {
    match e
    case Lit(_) => {}
    case Var(p) => PlaceLocals(p)
    case Addr(p) => PlaceLocals(p)
    case Deref(x) => ExprLocals(x)
    case Neg(x) => ExprLocals(x)
    case Inv(x) => ExprLocals(x)
    case LogNot(x) => ExprLocals(x)
    case Binary(_, l, r) => ExprLocals(l) + ExprLocals(r)
    case LogAnd(l, r) => ExprLocals(l) + ExprLocals(r)
    case LogOr(l, r) => ExprLocals(l) + ExprLocals(r)
    case Conditional(x, l, r) => ExprLocals(x) + ExprLocals(l) + ExprLocals(r)
    case Comma(l, r) => ExprLocals(l) + ExprLocals(r)
    case Assign(p, x) => PlaceLocals(p) + ExprLocals(x)
    case AssignVia(x, y) => ExprLocals(x) + ExprLocals(y)
    case Update(_, p, x) => PlaceLocals(p) + ExprLocals(x)
    case Bump(_, _, p) => PlaceLocals(p)
    case Invoke(_, args) => ArgsLocals(args)
  }

  function ArgsLocals(es: Exprs): set<int> {
    if es.NoExpr? then {} else ExprLocals(es.head) + ArgsLocals(es.tail)
  }

  function OptionLocals(e: Option<Expr>): set<int> {
    if e.Some? then ExprLocals(e.value) else {}
  }

  function StmtLocals(st: Stmt): set<int> {
    match st
    case ExprStmt(e) => ExprLocals(e)
    case VarDecl(k, init) => {k} + OptionLocals(init)
    case Block(body) => AllLocals(body)
    case If(c, yes, no) => ExprLocals(c) + StmtLocals(yes) + (if no.Some? then StmtLocals(no.value) else {})
    case While(c, body) => ExprLocals(c) + StmtLocals(body)
    case DoWhile(body, c) => ExprLocals(c) + StmtLocals(body)
    case For(start, test, step, body) =>
      (if start.Some? then StmtLocals(start.value) else {}) + OptionLocals(test) + OptionLocals(step) + StmtLocals(body)
    case Switch(e, cases) => ExprLocals(e) + CasesLocals(cases)
    case Return(v) => OptionLocals(v)
    case _ => {}
  }

  function AllLocals(ss: Stmts): set<int> {
    if ss.Nil? then {} else StmtLocals(ss.head) + AllLocals(ss.tail)
  }

  function CasesLocals(cases: Cases): set<int> {
    if cases.NoCase? then {} else OptionLocals(cases.value) + AllLocals(cases.stmts) + CasesLocals(cases.rest)
  }

  // ----- the slots that lowered code names -----

  /** Nothing but locals, and 8-byte temporaries in the frame between `lo` and `hi`; a call says nothing of the kinds of
      its arguments. */
  predicate Tidy(inst: Inst, locals: set<int>, lo: nat, hi: nat) {
    && (inst.Call? ==> inst.kinds == [])
    && (SlotOf(inst).Some? ==>
          var k := SlotOf(inst).value;
          k in locals || (-(hi as int) <= k < -(lo as int) && k % 8 == 0))
  }

  ghost predicate AllTidy(code: Code, locals: set<int>, lo: nat, hi: nat) {
    forall x :: x in code ==> Tidy(x, locals, lo, hi)
  }

  lemma TidyMore(code: Code, locals: set<int>, lo: nat, hi: nat, hi': nat)
    requires AllTidy(code, locals, lo, hi) && hi <= hi'
    ensures AllTidy(code, locals, lo, hi')
  {
  }

  lemma TidyJoin(a: Code, b: Code, locals: set<int>, lo: nat, hi: nat, hi': nat)
    requires AllTidy(a, locals, lo, hi) && AllTidy(b, locals, lo, hi') && hi <= hi'
    ensures AllTidy(a + b, locals, lo, hi')
  {
    forall x | x in a + b ensures Tidy(x, locals, lo, hi') {
      if x in a { assert Tidy(x, locals, lo, hi); }
    }
  }

  /** Lowering an expression names its locals, and temporaries that it makes room for itself. */
  lemma {:induction false} ExprTidy(e: Expr, c: Counters, locals: set<int>, lo: nat)
    requires c.stack % 8 == 0 && lo <= c.stack && ExprLocals(e) <= locals
    ensures LowerExpr(e, c).c.stack % 8 == 0 && AllTidy(LowerExpr(e, c).code, locals, lo, LowerExpr(e, c).c.stack)
    decreases e, 2
  {
    hide *;
    match e
    case Lit(_) => LitTidy(e, c, locals, lo);
    case Deref(_) => UnaryTidy(e, c, locals, lo);
    case Neg(_) => UnaryTidy(e, c, locals, lo);
    case Inv(_) => UnaryTidy(e, c, locals, lo);
    case LogNot(_) => UnaryTidy(e, c, locals, lo);
    case Binary(_, _, _) => BinaryTidy(e, c, locals, lo);
    case LogAnd(_, _) => DecisionTidy(e, c, locals, lo);
    case LogOr(_, _) => DecisionTidy(e, c, locals, lo);
    case Conditional(_, _, _) => ChoiceTidy(e, c, locals, lo);
    case Comma(_, _) => BinaryTidy(e, c, locals, lo);
    case Assign(_, _) => PlaceTidy(e, c, locals, lo);
    case AssignVia(_, _) => BinaryTidy(e, c, locals, lo);
    case Update(_, _, _) => PlaceTidy(e, c, locals, lo);
    case Bump(_, _, _) => PlaceTidy(e, c, locals, lo);
    case Var(_) => PlaceTidy(e, c, locals, lo);
    case Addr(_) => PlaceTidy(e, c, locals, lo);
    case Invoke(_, _) => InvokeTidy(e, c, locals, lo);
  }

  lemma LitTidy(e: Expr, c: Counters, locals: set<int>, lo: nat)
    requires c.stack % 8 == 0 && lo <= c.stack && e.Lit?
    ensures LowerExpr(e, c).c.stack % 8 == 0 && AllTidy(LowerExpr(e, c).code, locals, lo, LowerExpr(e, c).c.stack)
  {
  }

  lemma {:induction false} BinaryTidy(e: Expr, c: Counters, locals: set<int>, lo: nat)
    requires c.stack % 8 == 0 && lo <= c.stack && ExprLocals(e) <= locals && (e.Binary? || e.Comma? || e.AssignVia?)
    ensures LowerExpr(e, c).c.stack % 8 == 0 && AllTidy(LowerExpr(e, c).code, locals, lo, LowerExpr(e, c).c.stack)
    decreases e, 1
  {
    match e
    case Binary(op, l, r) => PairTidy(e, l, if op.Sub? && r.Neg? then r.e else r, c, locals, lo);
    case Comma(l, r) => PairTidy(e, l, r, c, locals, lo);
    case AssignVia(p, x) => PairTidy(e, x, p, c, locals, lo);
  }

  lemma {:induction false} DecisionTidy(e: Expr, c: Counters, locals: set<int>, lo: nat)
    requires c.stack % 8 == 0 && lo <= c.stack && ExprLocals(e) <= locals && (e.LogAnd? || e.LogOr?)
    ensures LowerExpr(e, c).c.stack % 8 == 0 && AllTidy(LowerExpr(e, c).code, locals, lo, LowerExpr(e, c).c.stack)
    decreases e, 1
  {
    PairTidy(e, e.l, e.r, Deciding(c), locals, lo);
    var a := LowerExpr(e.l, Deciding(c));
    var b := LowerExpr(e.r, a.c);
    assert LowerExpr(e, c) == Decided(e.LogAnd?, c, a, b);
    hide LowerExpr, ExprLocals;
  }

  lemma {:induction false} InvokeTidy(e: Expr, c: Counters, locals: set<int>, lo: nat)
    requires c.stack % 8 == 0 && lo <= c.stack && ExprLocals(e) <= locals && e.Invoke?
    ensures LowerExpr(e, c).c.stack % 8 == 0 && AllTidy(LowerExpr(e, c).code, locals, lo, LowerExpr(e, c).c.stack)
    decreases e, 1
  {
    ArgsTidy(e.args, c, locals, lo);
    var a := LowerArgs(e.args, c);
    assert LowerExpr(e, c) == Invoking(e.name, a);
    hide LowerExpr, LowerArgs;
  }

  lemma {:induction false} UnaryTidy(e: Expr, c: Counters, locals: set<int>, lo: nat)
    requires c.stack % 8 == 0 && lo <= c.stack && ExprLocals(e) <= locals && (e.Deref? || e.Neg? || e.Inv? || e.LogNot?)
    ensures LowerExpr(e, c).c.stack % 8 == 0 && AllTidy(LowerExpr(e, c).code, locals, lo, LowerExpr(e, c).c.stack)
    decreases e, 1
  {
    match e
    case Deref(x) => ExprTidy(x, c, locals, lo);
    case Neg(x) => if x.Neg? { ExprTidy(x.e, c, locals, lo); } else { ExprTidy(x, c, locals, lo); }
    case Inv(x) => if x.Inv? { ExprTidy(x.e, c, locals, lo); } else { ExprTidy(x, c, locals, lo); }
    case LogNot(x) => ExprTidy(x, c, locals, lo);
  }

  lemma {:induction false} ArgsTidy(es: Exprs, c: Counters, locals: set<int>, lo: nat)
    requires c.stack % 8 == 0 && lo <= c.stack && ArgsLocals(es) <= locals
    ensures LowerArgs(es, c).c.stack % 8 == 0 && AllTidy(LowerArgs(es, c).code, locals, lo, LowerArgs(es, c).c.stack)
    decreases es, 0
  {
    if es.MoreExprs? {
      var a := LowerExpr(es.head, c);
      var b := LowerArgs(es.tail, a.c);
      ExprTidy(es.head, c, locals, lo);
      ArgsTidy(es.tail, a.c, locals, lo);
      hide ExprLocals, LowerExpr;
      TidyMore(a.code, locals, lo, a.c.stack, b.c.stack);
      TidyJoin(a.code, b.code, locals, lo, a.c.stack, b.c.stack);
    }
  }

  lemma {:induction false} PlaceTidy(e: Expr, c: Counters, locals: set<int>, lo: nat)
    requires c.stack % 8 == 0 && lo <= c.stack && ExprLocals(e) <= locals
        && (e.Assign? || e.Update? || e.Bump? || e.Var? || e.Addr?)
    ensures LowerExpr(e, c).c.stack % 8 == 0 && AllTidy(LowerExpr(e, c).code, locals, lo, LowerExpr(e, c).c.stack)
    decreases e, 1
  {
    match e
    case Assign(_, x) => ExprTidy(x, c, locals, lo);
    case Update(_, _, x) => ExprTidy(x, c, locals, lo);
    case Bump(_, _, _) =>
    case Var(_) =>
    case Addr(_) =>
  }

  lemma {:induction false} PairTidy(e: Expr, l: Expr, r: Expr, c: Counters, locals: set<int>, lo: nat)
    requires l < e && r < e && c.stack % 8 == 0 && lo <= c.stack && ExprLocals(l) <= locals && ExprLocals(r) <= locals
    ensures var a := LowerExpr(l, c);
            var b := LowerExpr(r, a.c);
            b.c.stack % 8 == 0 && AllTidy(a.code, locals, lo, b.c.stack) && AllTidy(b.code, locals, lo, b.c.stack)
    decreases e, 0
  {
    hide *;
    var a := LowerExpr(l, c);
    var b := LowerExpr(r, a.c);
    ExprTidy(l, c, locals, lo);
    ExprTidy(r, a.c, locals, lo);
    TidyMore(a.code, locals, lo, a.c.stack, b.c.stack);
  }

  lemma {:induction false} ChoiceTidy(e: Expr, c: Counters, locals: set<int>, lo: nat)
    requires e.Conditional? && c.stack % 8 == 0 && lo <= c.stack && ExprLocals(e) <= locals
    ensures LowerExpr(e, c).c.stack % 8 == 0 && AllTidy(LowerExpr(e, c).code, locals, lo, LowerExpr(e, c).c.stack)
    decreases e, 1
  {
    var a := LowerExpr(e.cond, Choosing(c));
    var b := LowerExpr(e.l, a.c);
    var d := LowerExpr(e.r, b.c);
    var f := LowerExpr(e, c);
    assert f == Chosen(c, a, b, d);
    ExprTidy(e.cond, Choosing(c), locals, lo);
    PairTidy(e, e.l, e.r, a.c, locals, lo);
    hide LowerExpr, ExprLocals;
    TidyMore(a.code, locals, lo, a.c.stack, d.c.stack);
    var slot := -(c.stack as int + 8);
    assert Tidy(StoreStack(slot, b.o), locals, lo, d.c.stack) && Tidy(StoreStack(slot, d.o), locals, lo, d.c.stack);
    assert Tidy(LoadStack(d.c.vreg, slot), locals, lo, d.c.stack);
  }

  lemma {:induction false} StmtTidy(st: Stmt, c: Counters, brk: Option<Label>, cont: Option<Label>, locals: set<int>,
                                    lo: nat)
    requires c.stack % 8 == 0 && lo <= c.stack && StmtLocals(st) <= locals
    ensures var f := LowerStmt(st, c, brk, cont);
            f.c.stack % 8 == 0 && AllTidy(f.code, locals, lo, f.c.stack)
    decreases st, 1
  {
    match st
    case ExprStmt(e) => ExprTidy(e, c, locals, lo);
    case VarDecl(k, init) => if init.Some? { ExprTidy(init.value, c, locals, lo); }
    case Block(body) => AllStmtsTidy(body, c, brk, cont, locals, lo);
    case If(_, _, _) => IfTidy(st, c, brk, cont, locals, lo);
    case While(_, _) => WhileTidy(st, c, brk, cont, locals, lo);
    case DoWhile(_, _) => DoWhileTidy(st, c, brk, cont, locals, lo);
    case For(_, _, _, _) => ForTidy(st, c, brk, cont, locals, lo);
    case Switch(_, _) => SwitchTidy(st, c, brk, cont, locals, lo);
    case Return(v) => if v.Some? { ExprTidy(v.value, c, locals, lo); }
    case _ =>
  }

  lemma {:induction false} IfTidy(st: Stmt, c: Counters, brk: Option<Label>, cont: Option<Label>, locals: set<int>,
                                  lo: nat)
    requires st.If? && c.stack % 8 == 0 && lo <= c.stack && StmtLocals(st) <= locals
    ensures var f := LowerStmt(st, c, brk, cont);
            f.c.stack % 8 == 0 && AllTidy(f.code, locals, lo, f.c.stack)
    decreases st, 0
  {
    hide LowerExpr, LowerStmt, ExprLocals;
    LowerIf(st, c, brk, cont);
    var a := LowerExpr(st.cond, NextLabels(c, if st.no.None? then 1 else 2));
    var b := LowerStmt(st.yes, a.c, brk, cont);
    ExprTidy(st.cond, NextLabels(c, if st.no.None? then 1 else 2), locals, lo);
    StmtTidy(st.yes, a.c, brk, cont, locals, lo);
    TidyMore(a.code, locals, lo, a.c.stack, b.c.stack);
    if st.no.Some? {
      var d := LowerStmt(st.no.value, b.c, brk, cont);
      StmtTidy(st.no.value, b.c, brk, cont, locals, lo);
      TidyMore(a.code, locals, lo, b.c.stack, d.c.stack);
      TidyMore(b.code, locals, lo, b.c.stack, d.c.stack);
    }
  }

  lemma {:induction false} WhileTidy(st: Stmt, c: Counters, brk: Option<Label>, cont: Option<Label>, locals: set<int>,
                                     lo: nat)
    requires st.While? && c.stack % 8 == 0 && lo <= c.stack && StmtLocals(st) <= locals
    ensures var f := LowerStmt(st, c, brk, cont);
            f.c.stack % 8 == 0 && AllTidy(f.code, locals, lo, f.c.stack)
    decreases st, 0
  {
    hide LowerExpr, LowerStmt, ExprLocals;
    LowerRepeat(st, c, brk, cont);
    var a := LowerExpr(st.cond, NextLabels(c, 2));
    var b := LowerStmt(st.body1, a.c, Some(c.lab + 1), Some(c.lab));
    ExprTidy(st.cond, NextLabels(c, 2), locals, lo);
    StmtTidy(st.body1, a.c, Some(c.lab + 1), Some(c.lab), locals, lo);
    TidyMore(a.code, locals, lo, a.c.stack, b.c.stack);
  }

  lemma {:induction false} DoWhileTidy(st: Stmt, c: Counters, brk: Option<Label>, cont: Option<Label>, locals: set<int>,
                                       lo: nat)
    requires st.DoWhile? && c.stack % 8 == 0 && lo <= c.stack && StmtLocals(st) <= locals
    ensures var f := LowerStmt(st, c, brk, cont);
            f.c.stack % 8 == 0 && AllTidy(f.code, locals, lo, f.c.stack)
    decreases st, 0
  {
    hide LowerExpr, LowerStmt, ExprLocals;
    LowerRepeat(st, c, brk, cont);
    var b := LowerStmt(st.body1, NextLabels(c, 3), Some(c.lab + 2), Some(c.lab + 1));
    var a := LowerExpr(st.cond, b.c);
    StmtTidy(st.body1, NextLabels(c, 3), Some(c.lab + 2), Some(c.lab + 1), locals, lo);
    ExprTidy(st.cond, b.c, locals, lo);
    TidyMore(b.code, locals, lo, b.c.stack, a.c.stack);
  }

  lemma {:induction false} ForTidy(st: Stmt, c: Counters, brk: Option<Label>, cont: Option<Label>, locals: set<int>,
                                   lo: nat)
    requires st.For? && c.stack % 8 == 0 && lo <= c.stack && StmtLocals(st) <= locals
    ensures var f := LowerStmt(st, c, brk, cont);
            f.c.stack % 8 == 0 && AllTidy(f.code, locals, lo, f.c.stack)
    decreases st, 0
  {
    hide LowerExpr, LowerStmt, LowerLoop, ExprLocals, Looped;
    LowerFor(st, c, brk, cont);
    var i := if st.start.Some? then LowerStmt(st.start.value, NextLabels(c, 3), brk, cont)
                else Part([], NextLabels(c, 3));
    if st.start.Some? { StmtTidy(st.start.value, NextLabels(c, 3), brk, cont, locals, lo); }
    LoopTidy(st, c.lab, i.c, locals, lo);
    var l := LowerLoop(st.test, st.step, st.body1, c.lab, i.c);
    TidyJoin(i.code, l.code, locals, lo, i.c.stack, l.c.stack);
  }

  lemma {:induction false} LoopTidy(st: Stmt, l: Label, c: Counters, locals: set<int>, lo: nat)
    requires st.For? && c.stack % 8 == 0 && lo <= c.stack
    requires OptionLocals(st.test) <= locals && OptionLocals(st.step) <= locals && StmtLocals(st.body1) <= locals
    ensures var f := LowerLoop(st.test, st.step, st.body1, l, c);
            f.c.stack % 8 == 0 && c.stack <= f.c.stack && AllTidy(f.code, locals, lo, f.c.stack)
    decreases st.body1, 2
  {
    hide LowerExpr, LowerStmt, ExprLocals, StmtLocals;
    var a := LowerTest(st.test, l + 2, c);
    var b := LowerStmt(st.body1, a.c, Some(l + 2), Some(l + 1));
    var d := LowerStep(st.step, b.c);
    if st.test.Some? { ExprTidy(st.test.value, c, locals, lo); }
    StmtTidy(st.body1, a.c, Some(l + 2), Some(l + 1), locals, lo);
    if st.step.Some? { ExprTidy(st.step.value, b.c, locals, lo); }
    TidyMore(a.code, locals, lo, a.c.stack, d.c.stack);
    TidyMore(b.code, locals, lo, b.c.stack, d.c.stack);
  }

  lemma {:induction false} SwitchTidy(st: Stmt, c: Counters, brk: Option<Label>, cont: Option<Label>, locals: set<int>,
                                      lo: nat)
    requires st.Switch? && c.stack % 8 == 0 && lo <= c.stack && StmtLocals(st) <= locals
    ensures var f := LowerStmt(st, c, brk, cont);
            f.c.stack % 8 == 0 && AllTidy(f.code, locals, lo, f.c.stack)
    decreases st, 0
  {
    hide LowerExpr, LowerStmt, LowerTests, LowerBodies, ExprLocals, CasesLocals;
    LowerSwitch(st, c, brk, cont);
    var a := LowerExpr(st.e, NextLabels(c, 1));
    var t := LowerTests(st.cases, a.o, a.c);
    var b := LowerBodies(st.cases, t.labels, t.c, c.lab, cont);
    ExprTidy(st.e, NextLabels(c, 1), locals, lo);
    TestsTidy(st.cases, a.o, a.c, locals, lo);
    BodiesTidy(st.cases, t.labels, t.c, c.lab, cont, locals, lo);
    TidyMore(a.code, locals, lo, a.c.stack, b.c.stack);
    TidyMore(t.code, locals, lo, t.c.stack, b.c.stack);
  }

  lemma {:induction false} TestsTidy(cases: Cases, value: Opnd, c: Counters, locals: set<int>, lo: nat)
    requires c.stack % 8 == 0 && lo <= c.stack && CasesLocals(cases) <= locals
    ensures var t := LowerTests(cases, value, c);
            t.c.stack % 8 == 0 && AllTidy(t.code, locals, lo, t.c.stack)
    decreases cases
  {
    hide LowerExpr, LowerTests, ExprLocals, AllLocals;
    LowerCase(cases, value, c);
    if cases.Case? {
      if cases.value.None? {
        TestsTidy(cases.rest, value, NextLabels(c, 1), locals, lo);
      } else {
        var a := LowerExpr(cases.value.value, NextLabels(c, 1));
        ExprTidy(cases.value.value, NextLabels(c, 1), locals, lo);
        TestsTidy(cases.rest, value, NextReg(a.c), locals, lo);
        TidyMore(a.code, locals, lo, a.c.stack, LowerTests(cases.rest, value, NextReg(a.c)).c.stack);
      }
    }
  }

  lemma {:induction false} BodiesTidy(cases: Cases, labels: seq<Label>, c: Counters, end: Label, cont: Option<Label>,
                                      locals: set<int>, lo: nat)
    requires |labels| == Count(cases) && c.stack % 8 == 0 && lo <= c.stack && CasesLocals(cases) <= locals
    ensures var f := LowerBodies(cases, labels, c, end, cont);
            f.c.stack % 8 == 0 && AllTidy(f.code, locals, lo, f.c.stack)
    decreases cases, 0
  {
    hide LowerAll, ExprLocals, AllLocals;
    if cases.Case? {
      var a := LowerAll(cases.stmts, c, Some(end), cont);
      AllStmtsTidy(cases.stmts, c, Some(end), cont, locals, lo);
      BodiesTidy(cases.rest, labels[1..], a.c, end, cont, locals, lo);
      TidyMore(a.code, locals, lo, a.c.stack, LowerBodies(cases.rest, labels[1..], a.c, end, cont).c.stack);
    }
  }

  lemma {:induction false} AllStmtsTidy(ss: Stmts, c: Counters, brk: Option<Label>, cont: Option<Label>,
                                        locals: set<int>, lo: nat)
    requires c.stack % 8 == 0 && lo <= c.stack && AllLocals(ss) <= locals
    ensures var f := LowerAll(ss, c, brk, cont);
            f.c.stack % 8 == 0 && AllTidy(f.code, locals, lo, f.c.stack)
    decreases ss, 0
  {
    hide LowerStmt, StmtLocals;
    if ss.Cons? {
      var a := LowerStmt(ss.head, c, brk, cont);
      StmtTidy(ss.head, c, brk, cont, locals, lo);
      AllStmtsTidy(ss.tail, a.c, brk, cont, locals, lo);
      TidyJoin(a.code, LowerAll(ss.tail, a.c, brk, cont).code, locals, lo, a.c.stack,
               LowerAll(ss.tail, a.c, brk, cont).c.stack);
    }
  }

  // ----- the frame of a function -----

  function ParamSlots(params: seq<Param>): set<int> {
    set i | 0 <= i < |params| :: params[i].slot
  }

  /** The locals as semantic analysis places them: on distinct multiples of 8 in a frame of `size` bytes. */
  ghost predicate Declared(params: seq<Param>, body: Stmt, size: nat) {
    size % 8 == 0 && forall k :: k in ParamSlots(params) + StmtLocals(body) ==> -(size as int) <= k <= -8 && k % 8 == 0
  }

  /** The 8-byte cells of a local area. */
  function FrameCells(base: nat): set<int> {
    set k | -(base as int) <= k <= -8 && k % 8 == 0
  }

  /** The bytes reserved for locals and temporaries, rounded for the frame. */
  function LocalArea(params: seq<Param>, body: Stmt, size: nat, first: Label): nat {
    RegAlloc.Align16(LowerFunction(params, body, size, first).c.stack)
  }

  /** No more than rounding up to 16 takes. */
  lemma LocalAreaLeast(params: seq<Param>, body: Stmt, size: nat, first: Label, area: nat)
    requires area % 16 == 0
    ensures area >= LocalArea(params, body, size, first) <==>
            area >= LowerFunction(params, body, size, first).c.stack
  {
    hide LowerFunction;
  }

  /** Every slot that a lowered function names is a declared local or a temporary below the declared ones. */
  lemma FunctionTidy(params: seq<Param>, body: Stmt, size: nat, first: Label)
    requires size % 8 == 0
    ensures var f := LowerFunction(params, body, size, first);
            && size <= f.c.stack && f.c.stack % 8 == 0
            && AllTidy(f.code, ParamSlots(params) + StmtLocals(body), size, f.c.stack)
  {
    hide LowerStmt, StmtLocals;
    var c := Counters(1, first, size);
    var b := LowerStmt(body, c, None, None);
    var locals := ParamSlots(params) + StmtLocals(body);
    StmtTidy(body, c, None, None, locals, size);
    forall x | x in StoreParams(params) ensures Tidy(x, locals, size, b.c.stack) {
      var i :| 0 <= i < |params| && StoreParams(params)[i] == x;
      assert params[i].slot in ParamSlots(params);
    }
  }

  /** So the slots are distinct cells inside the local area. */
  lemma SlotsInFrame(params: seq<Param>, body: Stmt, size: nat, first: Label, k: int)
    requires Declared(params, body, size) && NamesSlot(LowerFunction(params, body, size, first).code, k)
    ensures k in FrameCells(LocalArea(params, body, size, first))
  {
    hide LowerFunction, StmtLocals, ParamSlots;
    FunctionTidy(params, body, size, first);
    var f := LowerFunction(params, body, size, first);
    var i :| 0 <= i < |f.code| && SlotOf(f.code[i]) == Some(k);
    assert f.code[i] in f.code && Tidy(f.code[i], ParamSlots(params) + StmtLocals(body), size, f.c.stack);
  }

  // ----- a declared body is in the scope of its frame -----

  ghost predicate Within(locals: set<int>, base: nat) {
    forall k :: k in locals ==> k + base >= 0
  }

  lemma {:induction false} ExprInFrame(e: Expr, locals: set<int>, base: nat)
    requires ExprLocals(e) <= locals && Within(locals, base)
    ensures InScope(e, base)
  {
    match e
    case Lit(_) =>
    case Var(_) =>
    case Addr(_) =>
    case Deref(x) => ExprInFrame(x, locals, base);
    case Neg(x) => ExprInFrame(x, locals, base);
    case Inv(x) => ExprInFrame(x, locals, base);
    case LogNot(x) => ExprInFrame(x, locals, base);
    case Binary(_, l, r) => ExprInFrame(l, locals, base); ExprInFrame(r, locals, base);
    case LogAnd(l, r) => ExprInFrame(l, locals, base); ExprInFrame(r, locals, base);
    case LogOr(l, r) => ExprInFrame(l, locals, base); ExprInFrame(r, locals, base);
    case Conditional(x, l, r) =>
      ExprInFrame(x, locals, base);
      ExprInFrame(l, locals, base);
      ExprInFrame(r, locals, base);
    case Comma(l, r) => ExprInFrame(l, locals, base); ExprInFrame(r, locals, base);
    case Assign(_, x) => ExprInFrame(x, locals, base);
    case AssignVia(x, y) => ExprInFrame(x, locals, base); ExprInFrame(y, locals, base);
    case Update(_, _, x) => ExprInFrame(x, locals, base);
    case Bump(_, _, _) =>
    case Invoke(_, args) => ArgsInFrame(args, locals, base);
  }

  lemma {:induction false} ArgsInFrame(es: Exprs, locals: set<int>, base: nat)
    requires ArgsLocals(es) <= locals && Within(locals, base)
    ensures ArgsInScope(es, base)
  {
    if es.MoreExprs? {
      ExprInFrame(es.head, locals, base);
      ArgsInFrame(es.tail, locals, base);
    }
  }

  lemma OptionInFrame(e: Option<Expr>, locals: set<int>, base: nat)
    requires OptionLocals(e) <= locals && Within(locals, base)
    ensures OptionInScope(e, base)
  {
    if e.Some? { ExprInFrame(e.value, locals, base); }
  }

  lemma {:induction false} StmtInFrame(st: Stmt, locals: set<int>, base: nat)
    requires StmtLocals(st) <= locals && Within(locals, base)
    ensures StmtInScope(st, base)
  {
    hide InScope, ExprLocals;
    match st
    case ExprStmt(e) => ExprInFrame(e, locals, base);
    case VarDecl(_, init) => OptionInFrame(init, locals, base);
    case Block(body) => AllInFrame(body, locals, base);
    case If(c, yes, no) =>
      ExprInFrame(c, locals, base);
      StmtInFrame(yes, locals, base);
      if no.Some? { StmtInFrame(no.value, locals, base); }
    case While(c, body) => ExprInFrame(c, locals, base); StmtInFrame(body, locals, base);
    case DoWhile(body, c) => ExprInFrame(c, locals, base); StmtInFrame(body, locals, base);
    case For(start, test, step, body) =>
      if start.Some? { StmtInFrame(start.value, locals, base); }
      OptionInFrame(test, locals, base); OptionInFrame(step, locals, base); StmtInFrame(body, locals, base);
    case Switch(e, cases) => ExprInFrame(e, locals, base); CasesInFrame(cases, locals, base);
    case Return(v) => OptionInFrame(v, locals, base);
    case _ =>
  }

  lemma {:induction false} AllInFrame(ss: Stmts, locals: set<int>, base: nat)
    requires AllLocals(ss) <= locals && Within(locals, base)
    ensures AllInScope(ss, base)
  {
    if ss.Cons? { StmtInFrame(ss.head, locals, base); AllInFrame(ss.tail, locals, base); }
  }

  lemma {:induction false} CasesInFrame(cases: Cases, locals: set<int>, base: nat)
    requires CasesLocals(cases) <= locals && Within(locals, base)
    ensures CasesInScope(cases, base)
  {
    if cases.Case? {
      OptionInFrame(cases.value, locals, base);
      AllInFrame(cases.stmts, locals, base);
      CasesInFrame(cases.rest, locals, base);
    }
  }
}
