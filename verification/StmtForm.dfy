/** Lowered statements, and so lowered functions, have the form that the passes rely on. */
module StmtForm {
  import opened Word64
  import opened IR
  import opened LoweredForm
  import opened Source
  import opened Lowering
  import opened FormParts
  import opened LoweringForm

  /** The labels a statement may leave to. */
  function Ways(brk: Option<Label>, cont: Option<Label>): set<Label> {
    (if brk.Some? then {brk.value} else {}) + (if cont.Some? then {cont.value} else {})
  }

  ghost predicate Below(ls: set<Label>, n: Label) {
    forall l :: l in ls ==> l < n
  }

  /** A lowered statement is complete up to its ways out, and uses nothing from before it. */
  ghost predicate PartForm(f: Part, c: Counters, out: set<Label>) {
    Whole(f.code, c, f.c, out) && Own(f.code, c.vreg)
  }

  lemma PartFormIs(f: Part, c: Counters, out: set<Label>)
    ensures PartForm(f, c, out) <==> Whole(f.code, c, f.c, out) && Own(f.code, c.vreg)
  {
  }

  lemma BelowIsOutside(pub: set<Label>, lo: Counters, hi: Counters)
    requires Below(pub, lo.lab)
    ensures Outside(pub, lo, hi)
  {
  }

  lemma AddPartForm(code: Code, f: Part, pub: set<Label>, lo: Counters, mid: Counters, marks: set<Label>,
                    jumps: set<Label>, out: set<Label>)
    requires Begun(code, pub, lo, mid, marks, jumps) && PartForm(f, mid, out) && out <= pub && Outside(pub, mid, f.c)
    ensures Begun(code + f.code, pub, lo, f.c, marks, jumps + out)
  {
    hide Begun, Whole, Own, Outside;
    AddPart(code, f.code, pub, lo, mid, f.c, marks, jumps, out);
  }

  /** A statement's construct is complete. */
  lemma PartDone(f: Part, pub: set<Label>, c: Counters, mid: Counters, marks: set<Label>, jumps: set<Label>,
                 out: set<Label>)
    requires Begun(f.code, pub, mid, f.c, marks, jumps) && c.lab <= mid.lab && c.vreg == mid.vreg && out <= pub
    requires forall l :: l in marks ==> c.lab <= l < f.c.lab
    requires Below(out, c.lab) && jumps <= marks + out
    ensures PartForm(f, c, out)
  {
    hide Begun, Whole, Own;
    Finish(f.code, pub, c, mid, f.c, marks, jumps, out);
  }

  /** A part without labels of its own. */
  lemma PlainDone(f: Part, c: Counters, out: set<Label>, jumps: set<Label>)
    requires Begun(f.code, out, c, f.c, {}, jumps) && Below(out, c.lab) && jumps <= out
    ensures PartForm(f, c, out)
  {
    hide Begun, Below;
    PartDone(f, out, c, c, {}, jumps, out);
  }

  lemma NothingForm(c: Counters, out: set<Label>)
    requires Below(out, c.lab)
    ensures PartForm(Part([], c), c, out)
  {
    hide Begun, Below, PartForm;
    Begin(out, c);
    PlainDone(Part([], c), c, out, {});
  }

  lemma ExprPartForm(f: Fragment, c: Counters, out: set<Label>)
    requires ExprForm(f, c) && Below(out, c.lab)
    ensures PartForm(Part(f.code, f.c), c, out)
  {
    BelowIsOutside(out, c, f.c);
    hide Begun, Below, PartForm, ExprForm, Outside;
    Begin(out, c);
    AddExpr([], f, out, c, c, {}, {});
    assert [] + f.code == f.code;
    PlainDone(Part(f.code, f.c), c, out, {});
  }

  /** The value of an expression and one more instruction that uses it. */
  lemma ExprThenForm(f: Fragment, i: Inst, c: Counters, out: set<Label>)
    requires ExprForm(f, c) && f.o.Reg? && c.vreg <= f.o.v < f.c.vreg && Below(out, c.lab)
    requires i == Ret(f.o) || exists k: int :: i == StoreStack(k, f.o)
    ensures PartForm(Part(f.code + [i], f.c), c, out)
  {
    BelowIsOutside(out, c, f.c);
    assert Plain(i, out, f.c, f.c) && Uses(i) == {f.o.v} && !IsJump(i) && !i.Mark?;
    hide Begun, Below, PartForm, ExprForm, Outside, Plain, Uses, Export, IsJump;
    StartWith(f, out, c);
    AddInst(f.code, i, out, c, f.c, f.c, {}, {});
    PlainDone(Part(f.code + [i], f.c), c, out, {});
  }

  lemma JumpOutForm(l: Option<Label>, c: Counters, out: set<Label>)
    requires Below(out, c.lab) && (l.Some? ==> l.value in out)
    ensures PartForm(Part(JumpOut(l), c), c, out)
  {
    hide Begun, Below, PartForm;
    Begin(out, c);
    if l.Some? {
      AddJump([], l.value, out, c, c, {}, {});
      assert [] + [Jmp(l.value)] == [Jmp(l.value)];
      PlainDone(Part([Jmp(l.value)], c), c, out, {} + {l.value});
    } else {
      PlainDone(Part([], c), c, out, {});
    }
  }

  lemma ReturnZeroForm(c: Counters, out: set<Label>)
    requires Below(out, c.lab)
    ensures PartForm(Part([Ret(Imm(0))], c), c, out)
  {
    RetPlain(out, c);
    hide Begun, Below, PartForm, Plain, Uses, Export;
    Begin(out, c);
    AddInst([], Ret(Imm(0)), out, c, c, c, {}, {});
    assert [] + [Ret(Imm(0))] == [Ret(Imm(0))];
    PlainDone(Part([Ret(Imm(0))], c), c, out, {});
  }

  lemma RetPlain(pub: set<Label>, c: Counters)
    ensures Plain(Ret(Imm(0)), pub, c, c) && Uses(Ret(Imm(0))) == {}
  {
  }

  lemma SequenceForm(a: Part, b: Part, c: Counters, out: set<Label>)
    requires PartForm(a, c, out) && PartForm(b, a.c, out) && Below(out, c.lab) && c.lab <= a.c.lab
    ensures PartForm(Part(a.code + b.code, b.c), c, out)
  {
    BelowIsOutside(out, c, a.c);
    BelowIsOutside(out, a.c, b.c);
    hide Begun, Below, PartForm, Outside;
    Begin(out, c);
    AddPartForm([], a, out, c, c, {}, {}, out);
    assert [] + a.code == a.code && {} + out == out;
    AddPartForm(a.code, b, out, c, a.c, {}, out, out);
    PlainDone(Part(a.code + b.code, b.c), c, out, out + out);
  }

  // ----- branches and loops -----

  /** The labels of a construct with `n` labels. */
  function OwnLabels(l: Label, n: nat): (own: set<Label>)
    ensures forall k :: k in own <==> l <= k < l + n
  {
    if n == 0 then {} else OwnLabels(l, n - 1) + {l + n - 1}
  }

  lemma ConstructBegins(c: Counters, n: nat, out: set<Label>)
    requires Below(out, c.lab)
    ensures var pub, mid := out + OwnLabels(c.lab, n), NextLabels(c, n);
            && Begun([], pub, mid, mid, {}, {}) && Below(pub, mid.lab) && mid.vreg == c.vreg && mid.lab == c.lab + n
            && out <= pub
            && (n >= 1 ==> c.lab in pub) && (n >= 2 ==> c.lab + 1 in pub) && (n >= 3 ==> c.lab + 2 in pub)
  {
    hide Begun;
    Begin(out + OwnLabels(c.lab, n), NextLabels(c, n));
  }

  lemma MoreOutside(pub: set<Label>, n: Label, lo: Counters, hi: Counters)
    requires Below(pub, n) && n <= lo.lab
    ensures Outside(pub, lo, hi)
  {
  }

  lemma IfThenForm(c: Counters, a: Fragment, b: Part, out: set<Label>)
    requires Below(out, c.lab) && ExprForm(a, NextLabels(c, 1)) && PartForm(b, a.c, out)
    requires a.o.Reg? && c.vreg <= a.o.v < a.c.vreg && c.lab + 1 <= a.c.lab <= b.c.lab
    ensures PartForm(IfThen(c, a, b), c, out)
  {
    var f := IfThen(c, a, b);
    assert f.code == a.code + [JmpIf(false, a.o, c.lab)] + b.code + [Mark(c.lab)] && f.c == b.c;
    hide *;
    ConstructBegins(c, 1, out);
    var pub, mid, l := out + OwnLabels(c.lab, 1), NextLabels(c, 1), c.lab;
    MoreOutside(pub, l + 1, mid, a.c);
    MoreOutside(pub, l + 1, a.c, b.c);
    AddBranch([], a, false, l, pub, mid, mid, {}, {});
    var x1 := a.code + [JmpIf(false, a.o, l)];
    assert [] + a.code + [JmpIf(false, a.o, l)] == x1;
    AddPartForm(x1, b, pub, mid, a.c, {}, {} + {l}, out);
    AddMark(x1 + b.code, l, pub, mid, b.c, {}, {} + {l} + out);
    PartDone(f, pub, c, mid, {} + {l}, {} + {l} + out, out);
  }

  lemma IfElseForm(c: Counters, a: Fragment, b: Part, d: Part, out: set<Label>)
    requires Below(out, c.lab) && ExprForm(a, NextLabels(c, 2)) && PartForm(b, a.c, out) && PartForm(d, b.c, out)
    requires a.o.Reg? && c.vreg <= a.o.v < a.c.vreg && c.lab + 2 <= a.c.lab <= b.c.lab <= d.c.lab
    ensures PartForm(IfElse(c, a, b, d), c, out)
  {
    hide *;
    IfElseShape(c, a, b, d);
    var f := IfElse(c, a, b, d);
    ConstructBegins(c, 2, out);
    var pub, mid, l := out + OwnLabels(c.lab, 2), NextLabels(c, 2), c.lab;
    MoreOutside(pub, l + 2, mid, a.c);
    MoreOutside(pub, l + 2, a.c, b.c);
    MoreOutside(pub, l + 2, b.c, d.c);
    AddBranch([], a, false, l, pub, mid, mid, {}, {});
    var x1 := a.code + [JmpIf(false, a.o, l)];
    assert [] + a.code + [JmpIf(false, a.o, l)] == x1;
    AddPartForm(x1, b, pub, mid, a.c, {}, {} + {l}, out);
    var j := {} + {l} + out;
    AddJump(x1 + b.code, l + 1, pub, mid, b.c, {}, j);
    AddMark(x1 + b.code + [Jmp(l + 1)], l, pub, mid, b.c, {}, j + {l + 1});
    var x2 := x1 + b.code + [Jmp(l + 1)] + [Mark(l)];
    AddPartForm(x2, d, pub, mid, b.c, {} + {l}, j + {l + 1}, out);
    AddMark(x2 + d.code, l + 1, pub, mid, d.c, {} + {l}, j + {l + 1} + out);
    PartDone(f, pub, c, mid, {} + {l} + {l + 1}, j + {l + 1} + out, out);
  }

  lemma IfElseShape(c: Counters, a: Fragment, b: Part, d: Part)
    ensures var f := IfElse(c, a, b, d);
            && f.c == d.c
            && f.code == a.code + [JmpIf(false, a.o, c.lab)] + b.code + [Jmp(c.lab + 1)] + [Mark(c.lab)] + d.code
                + [Mark(c.lab + 1)]
  {
  }

  lemma WhileForm(c: Counters, a: Fragment, b: Part, out: set<Label>)
    requires Below(out, c.lab) && ExprForm(a, NextLabels(c, 2)) && PartForm(b, a.c, {c.lab, c.lab + 1})
    requires a.o.Reg? && c.vreg <= a.o.v < a.c.vreg && c.lab + 2 <= a.c.lab <= b.c.lab
    ensures PartForm(Whiled(c, a, b), c, out)
  {
    hide *;
    WhileShape(c, a, b);
    var f := Whiled(c, a, b);
    ConstructBegins(c, 2, out);
    var pub, mid, l := out + OwnLabels(c.lab, 2), NextLabels(c, 2), c.lab;
    MoreOutside(pub, l + 2, mid, a.c);
    MoreOutside(pub, l + 2, a.c, b.c);
    AddMark([], l, pub, mid, mid, {}, {});
    var x0 := [Mark(l)];
    assert [] + [Mark(l)] == x0;
    AddBranch(x0, a, false, l + 1, pub, mid, mid, {} + {l}, {});
    var x1 := x0 + a.code + [JmpIf(false, a.o, l + 1)];
    AddPartForm(x1, b, pub, mid, a.c, {} + {l}, {} + {l + 1}, {l, l + 1});
    var j := {} + {l + 1} + {l, l + 1};
    AddJump(x1 + b.code, l, pub, mid, b.c, {} + {l}, j);
    AddMark(x1 + b.code + [Jmp(l)], l + 1, pub, mid, b.c, {} + {l}, j + {l});
    PartDone(f, pub, c, mid, {} + {l} + {l + 1}, j + {l}, out);
  }

  lemma WhileShape(c: Counters, a: Fragment, b: Part)
    ensures var f := Whiled(c, a, b);
            && f.c == b.c
            && f.code == [Mark(c.lab)] + a.code + [JmpIf(false, a.o, c.lab + 1)] + b.code + [Jmp(c.lab)]
                + [Mark(c.lab + 1)]
  {
  }

  lemma DoWhileForm(c: Counters, b: Part, a: Fragment, out: set<Label>)
    requires Below(out, c.lab) && PartForm(b, NextLabels(c, 3), {c.lab + 1, c.lab + 2}) && ExprForm(a, b.c)
    requires a.o.Reg? && c.vreg <= b.c.vreg <= a.o.v < a.c.vreg && c.lab + 3 <= b.c.lab <= a.c.lab
    ensures PartForm(DoWhiled(c, b, a), c, out)
  {
    hide *;
    DoWhileShape(c, b, a);
    var f := DoWhiled(c, b, a);
    ConstructBegins(c, 3, out);
    var pub, mid, l := out + OwnLabels(c.lab, 3), NextLabels(c, 3), c.lab;
    MoreOutside(pub, l + 3, mid, b.c);
    MoreOutside(pub, l + 3, b.c, a.c);
    AddMark([], l, pub, mid, mid, {}, {});
    var x0 := [Mark(l)];
    assert [] + [Mark(l)] == x0;
    AddPartForm(x0, b, pub, mid, mid, {} + {l}, {}, {l + 1, l + 2});
    AddMark(x0 + b.code, l + 1, pub, mid, b.c, {} + {l}, {} + {l + 1, l + 2});
    var x1 := x0 + b.code + [Mark(l + 1)];
    AddBranch(x1, a, true, l, pub, mid, b.c, {} + {l} + {l + 1}, {} + {l + 1, l + 2});
    var x2 := x1 + a.code + [JmpIf(true, a.o, l)];
    AddMark(x2, l + 2, pub, mid, a.c, {} + {l} + {l + 1}, {} + {l + 1, l + 2} + {l});
    PartDone(f, pub, c, mid, {} + {l} + {l + 1} + {l + 2}, {} + {l + 1, l + 2} + {l}, out);
  }

  lemma DoWhileShape(c: Counters, b: Part, a: Fragment)
    ensures var f := DoWhiled(c, b, a);
            && f.c == a.c
            && f.code == [Mark(c.lab)] + b.code + [Mark(c.lab + 1)] + a.code + [JmpIf(true, a.o, c.lab)]
                + [Mark(c.lab + 2)]
  {
  }

  /** Initialisation and loop of a `for` statement, which share its three labels. */
  lemma ForForm(c: Counters, i: Part, test: Part, body: Part, step: Part, out: set<Label>)
    requires Below(out, c.lab) && PartForm(i, NextLabels(c, 3), out)
    requires PartForm(test, i.c, {c.lab + 2}) && PartForm(body, test.c, {c.lab + 1, c.lab + 2})
        && PartForm(step, body.c, {})
    requires c.lab + 3 <= i.c.lab <= test.c.lab <= body.c.lab <= step.c.lab
    ensures PartForm(Part(i.code + Looped(c.lab, test, body, step).code, step.c), c, out)
  {
    hide *;
    ForShape(c, i, test, body, step);
    var f := Part(i.code + Looped(c.lab, test, body, step).code, step.c);
    ConstructBegins(c, 3, out);
    var pub, mid, l := out + OwnLabels(c.lab, 3), NextLabels(c, 3), c.lab;
    MoreOutside(pub, l + 3, mid, i.c);
    MoreOutside(pub, l + 3, i.c, test.c);
    MoreOutside(pub, l + 3, test.c, body.c);
    MoreOutside(pub, l + 3, body.c, step.c);
    AddPartForm([], i, pub, mid, mid, {}, {}, out);
    assert [] + i.code == i.code;
    AddMark(i.code, l, pub, mid, i.c, {}, {} + out);
    var x0 := i.code + [Mark(l)];
    AddPartForm(x0, test, pub, mid, i.c, {} + {l}, {} + out, {l + 2});
    AddPartForm(x0 + test.code, body, pub, mid, test.c, {} + {l}, {} + out + {l + 2}, {l + 1, l + 2});
    var x1 := x0 + test.code + body.code;
    var j := {} + out + {l + 2} + {l + 1, l + 2};
    AddMark(x1, l + 1, pub, mid, body.c, {} + {l}, j);
    AddPartForm(x1 + [Mark(l + 1)], step, pub, mid, body.c, {} + {l} + {l + 1}, j, {});
    var x2 := x1 + [Mark(l + 1)] + step.code;
    AddJump(x2, l, pub, mid, step.c, {} + {l} + {l + 1}, j + {});
    AddMark(x2 + [Jmp(l)], l + 2, pub, mid, step.c, {} + {l} + {l + 1}, j + {} + {l});
    PartDone(f, pub, c, mid, {} + {l} + {l + 1} + {l + 2}, j + {} + {l}, out);
  }

  lemma ForShape(c: Counters, i: Part, test: Part, body: Part, step: Part)
    ensures i.code + Looped(c.lab, test, body, step).code
         == i.code + [Mark(c.lab)] + test.code + body.code + [Mark(c.lab + 1)] + step.code + [Jmp(c.lab)]
           + [Mark(c.lab + 2)]
    ensures Looped(c.lab, test, body, step).c == step.c
  {
  }

  lemma TestForm(test: Option<Expr>, end: Label, c: Counters)
    requires end < c.lab
    ensures PartForm(LowerTest(test, end, c), c, {end})
  {
    hide Begun, PartForm, ExprForm, Outside, LowerExpr;
    if test.None? {
      NothingForm(c, {end});
    } else {
      var a := LowerExpr(test.value, c);
      ExprHasForm(test.value, c);
      BelowIsOutside({end}, c, a.c);
      Begin({end}, c);
      AddBranch([], a, false, end, {end}, c, c, {}, {});
      assert [] + a.code == a.code;
      PlainDone(LowerTest(test, end, c), c, {end}, {} + {end});
    }
  }

  lemma StepForm(step: Option<Expr>, c: Counters)
    ensures PartForm(LowerStep(step, c), c, {})
  {
    hide PartForm, ExprForm, LowerExpr;
    if step.None? {
      NothingForm(c, {});
    } else {
      ExprHasForm(step.value, c);
      ExprPartForm(LowerExpr(step.value, c), c, {});
    }
  }

  // ----- `switch` -----

  function Members(ls: seq<Label>): set<Label> {
    set l | l in ls
  }

  function BehindTest(cases: Cases, c: Counters): Counters
    requires cases.Case?
  {
    if cases.value.None? then NextLabels(c, 1) else NextReg(LowerExpr(cases.value.value, NextLabels(c, 1)).c)
  }

  lemma NextTest(cases: Cases, value: Opnd, c: Counters)
    requires cases.Case?
    ensures var t, next := LowerTests(cases, value, c), BehindTest(cases, c);
            var rest := LowerTests(cases.rest, value, next);
            && t.labels == [c.lab] + rest.labels && t.c == rest.c && c.lab < next.lab <= rest.c.lab
            && (t.fallback == rest.fallback || t.fallback == Some(c.lab))
  {
  }

  /** The case labels are distinct and lie between the counters. */
  lemma {:induction false} TestLabels(cases: Cases, value: Opnd, c: Counters)
    ensures var t := LowerTests(cases, value, c);
            && (forall i :: 0 <= i < |t.labels| ==> c.lab <= t.labels[i] < t.c.lab)
            && (forall i, j :: 0 <= i < j < |t.labels| ==> t.labels[i] < t.labels[j])
            && (t.fallback.Some? ==> t.fallback.value in t.labels)
    decreases cases
  {
    if cases.Case? {
      hide LowerExpr, LowerTests;
      var next := BehindTest(cases, c);
      TestLabels(cases.rest, value, next);
      NextTest(cases, value, c);
      var t, rest := LowerTests(cases, value, c), LowerTests(cases.rest, value, next);
      assert t.labels[0] == c.lab;
      assert forall i :: 0 <= i < |rest.labels| ==> t.labels[i + 1] == rest.labels[i];
      forall i, j | 0 <= i < j < |t.labels| ensures t.labels[i] < t.labels[j] {
        assert t.labels[j] == rest.labels[j - 1];
        if i > 0 { assert t.labels[i] == rest.labels[i - 1]; }
      }
    }
  }

  /** Public labels between the counters of the tests are case labels. */
  ghost predicate OnlyCases(pub: set<Label>, labels: seq<Label>, lo: Label, hi: Label) {
    forall l :: l in pub ==> l < lo || hi <= l || l in labels
  }

  lemma EqualPlain(value: Opnd, o: Opnd, pub: set<Label>, c: Counters)
    requires value.Reg? && value.v < c.vreg && o.Reg? && o.v < c.vreg
    ensures var i := Bin(CmpEq, c.vreg, value, o);
            Plain(i, pub, c, NextReg(c)) && Uses(i) == {value.v, o.v} && Def(i) == Some(c.vreg) && !i.Mark?
              && !IsJump(i)
    ensures NextReg(c).vreg == c.vreg + 1 && NextReg(c).lab == c.lab
  {
  }

  /** One comparison of a switch is appended; the value stays usable. */
  lemma AddCompare(code: Code, e: Expr, value: Opnd, l: Label, pub: set<Label>, lo: Counters, mid: Counters,
                   marks: set<Label>, jumps: set<Label>)
    requires Begun(code, pub, lo, mid, marks, jumps) && value.Reg? && lo.vreg <= value.v < mid.vreg
        && Export(code, pub, value.v)
    requires l in pub && Outside(pub, mid, LowerExpr(e, mid).c)
    ensures var a := LowerExpr(e, mid);
            var all := code + a.code + [Bin(CmpEq, a.c.vreg, value, a.o)] + [JmpIf(true, Reg(a.c.vreg), l)];
            Begun(all, pub, lo, NextReg(a.c), marks, jumps + {l}) && Export(all, pub, value.v)
  {
    hide *;
    var a := LowerExpr(e, mid);
    ExprHasForm(e, mid);
    EqualPlain(value, a.o, pub, a.c);
    JumpPlain(true, Reg(a.c.vreg), l, pub, NextReg(a.c));
    var i, j := Bin(CmpEq, a.c.vreg, value, a.o), JmpIf(true, Reg(a.c.vreg), l);
    AddExpr(code, a, pub, lo, mid, marks, jumps);
    ExportWithExpr(code, a, pub, lo, mid, marks, jumps, value.v);
    AddInst(code + a.code, i, pub, lo, a.c, NextReg(a.c), marks, jumps);
    ExportWithInst(code + a.code, i, pub, lo, a.c, NextReg(a.c), marks, jumps, value.v);
    AddInst(code + a.code + [i], j, pub, lo, NextReg(a.c), NextReg(a.c), marks, jumps);
    ExportWithInst(code + a.code + [i], j, pub, lo, NextReg(a.c), NextReg(a.c), marks, jumps, value.v);
  }

  lemma RelabelBegun(code: Code, pub: set<Label>, lo: Counters, hi: Counters, hi': Counters, marks: set<Label>,
                     jumps: set<Label>, jumps': set<Label>)
    requires Begun(code, pub, lo, hi, marks, jumps) && hi'.lab >= hi.lab && hi'.vreg == hi.vreg && jumps <= jumps'
    ensures Begun(code, pub, lo, hi', marks, jumps')
  {
  }

  lemma TestsShape(cases: Cases, value: Opnd, c: Counters)
    requires cases.Case?
    ensures var t := LowerTests(cases, value, c);
            var first := NextLabels(c, 1);
            && first.vreg == c.vreg && first.lab == c.lab + 1
            && (cases.value.None? ==>
                  var rest := LowerTests(cases.rest, value, first);
                  t.code == rest.code && t.labels == [c.lab] + rest.labels && t.c == rest.c)
            && (cases.value.Some? ==>
                  var a := LowerExpr(cases.value.value, first);
                  var rest := LowerTests(cases.rest, value, NextReg(a.c));
                  && t.code == a.code + [Bin(CmpEq, a.c.vreg, value, a.o)] + [JmpIf(true, Reg(a.c.vreg), c.lab)]
                      + rest.code
                  && t.labels == [c.lab] + rest.labels && t.c == rest.c
                  && NextReg(a.c).vreg == a.c.vreg + 1 && NextReg(a.c).lab == a.c.lab)
  {
    hide LowerExpr;
  }

  lemma NoTests(cases: Cases, value: Opnd, c: Counters, code: Code, jumps: set<Label>)
    requires cases.NoCase?
    ensures var t := LowerTests(cases, value, c);
            code + t.code == code && t.c == c && jumps + Members(t.labels) == jumps
  {
  }

  lemma {:induction false} AddTests(code: Code, cases: Cases, value: Opnd, pub: set<Label>, lo: Counters, mid: Counters,
                                    marks: set<Label>, jumps: set<Label>)
    requires Begun(code, pub, lo, mid, marks, jumps) && value.Reg? && lo.vreg <= value.v < mid.vreg
        && Export(code, pub, value.v)
    requires var t := LowerTests(cases, value, mid);
            Members(t.labels) <= pub && OnlyCases(pub, t.labels, mid.lab, t.c.lab)
    ensures var t := LowerTests(cases, value, mid);
            Begun(code + t.code, pub, lo, t.c, marks, jumps + Members(t.labels))
    decreases cases
  {
    hide *;
    var t := LowerTests(cases, value, mid);
    if cases.NoCase? {
      NoTests(cases, value, mid, code, jumps);
    } else {
      TestsShape(cases, value, mid);
      TestLabels(cases, value, mid);
      var first := NextLabels(mid, 1);
      if cases.value.None? {
        var rest := LowerTests(cases.rest, value, first);
        TailLabels(pub, mid.lab, rest.labels, mid.lab, first.lab, t.c.lab);
        RelabelBegun(code, pub, lo, mid, first, marks, jumps, jumps);
        AddTests(code, cases.rest, value, pub, lo, first, marks, jumps);
        RelabelBegun(code + t.code, pub, lo, t.c, t.c, marks, jumps + Members(rest.labels), jumps + Members(t.labels));
      } else {
        var a := LowerExpr(cases.value.value, first);
        var rest := LowerTests(cases.rest, value, NextReg(a.c));
        TestLabels(cases.rest, value, NextReg(a.c));
        TailLabels(pub, mid.lab, rest.labels, mid.lab, NextReg(a.c).lab, t.c.lab);
        CompareOutside(pub, mid.lab, rest.labels, first, a.c, t.c.lab);
        RelabelBegun(code, pub, lo, mid, first, marks, jumps, jumps);
        AddCompare(code, cases.value.value, value, mid.lab, pub, lo, first, marks, jumps);
        var all := code + a.code + [Bin(CmpEq, a.c.vreg, value, a.o)] + [JmpIf(true, Reg(a.c.vreg), mid.lab)];
        AddTests(all, cases.rest, value, pub, lo, NextReg(a.c), marks, jumps + {mid.lab});
        assert all + rest.code == code + t.code;
        RelabelBegun(code + t.code, pub, lo, t.c, t.c, marks, jumps + {mid.lab} + Members(rest.labels),
                     jumps + Members(t.labels));
      }
    }
  }

  lemma TailLabels(pub: set<Label>, l: Label, rest: seq<Label>, lo: Label, next: Label, hi: Label)
    requires Members([l] + rest) <= pub && OnlyCases(pub, [l] + rest, lo, hi) && l < next && lo <= next
    ensures Members(rest) <= pub && OnlyCases(pub, rest, next, hi) && l in pub
    ensures Members([l] + rest) == {l} + Members(rest)
  {
    var all := [l] + rest;
    assert forall m :: m in all <==> m == l || m in rest;
    assert l in Members(all);
    assert forall m :: m in rest ==> m in Members(all);
  }

  lemma CompareOutside(pub: set<Label>, l: Label, rest: seq<Label>, lo: Counters, mid: Counters, hi: Label)
    requires OnlyCases(pub, [l] + rest, l, hi) && l < lo.lab && mid.lab <= hi
    requires forall i :: 0 <= i < |rest| ==> mid.lab <= rest[i]
    ensures Outside(pub, lo, mid)
  {
  }

  lemma BodiesShape(cases: Cases, labels: seq<Label>, c: Counters, end: Label, cont: Option<Label>)
    requires |labels| == Count(cases)
    ensures cases.NoCase? ==> LowerBodies(cases, labels, c, end, cont) == Part([], c) && labels == []
    ensures cases.Case? ==>
              var a := LowerAll(cases.stmts, c, Some(end), cont);
              && |labels| > 0 && |labels[1..]| == Count(cases.rest)
              && LowerBodies(cases, labels, c, end, cont)
                   == Part([Mark(labels[0])] + a.code + LowerBodies(cases.rest, labels[1..], a.c, end, cont).code,
                           LowerBodies(cases.rest, labels[1..], a.c, end, cont).c)
  {
  }

  ghost predicate Distinct(ls: seq<Label>) {
    forall i, j :: 0 <= i < j < |ls| ==> ls[i] != ls[j]
  }

  lemma DistinctTail(ls: seq<Label>, marks: set<Label>)
    requires |ls| > 0 && Distinct(ls) && Members(ls) !! marks
    ensures Distinct(ls[1..]) && Members(ls[1..]) !! (marks + {ls[0]}) && ls[0] !in marks
    ensures Members(ls) == Members(ls[1..]) + {ls[0]}
  {
    assert forall l :: l in ls <==> l == ls[0] || l in ls[1..];
    assert ls[0] in Members(ls);
    assert forall i :: 0 <= i < |ls[1..]| ==> ls[1..][i] == ls[i + 1];
    assert forall l :: l in ls[1..] ==> l in Members(ls);
  }

  lemma AddBodies(code: Code, cases: Cases, labels: seq<Label>, end: Label, cont: Option<Label>, pub: set<Label>,
                  lo: Counters, mid: Counters, marks: set<Label>, jumps: set<Label>)
    requires |labels| == Count(cases) && Distinct(labels) && Members(labels) !! marks && Members(labels) <= pub
    requires Begun(code, pub, lo, mid, marks, jumps) && Ways(Some(end), cont) <= pub && Below(pub, mid.lab)
    ensures var b := LowerBodies(cases, labels, mid, end, cont);
            Begun(code + b.code, pub, lo, b.c, marks + Members(labels), jumps + Ways(Some(end), cont))
    decreases cases, 0
  {
    hide *;
    BodiesShape(cases, labels, mid, end, cont);
    var b := LowerBodies(cases, labels, mid, end, cont);
    var ways := Ways(Some(end), cont);
    if cases.NoCase? {
      assert code + b.code == code;
      NoMembers();
      assert marks + Members(labels) == marks;
      RelabelBegun(code, pub, lo, mid, mid, marks, jumps, jumps + ways);
    } else {
      var l := labels[0];
      var a := LowerAll(cases.stmts, mid, Some(end), cont);
      var rest := LowerBodies(cases.rest, labels[1..], a.c, end, cont);
      DistinctTail(labels, marks);
      WaysIn(Some(end), cont, pub, mid.lab);
      AllHasForm(cases.stmts, mid, Some(end), cont);
      MoreOutside(pub, mid.lab, mid, a.c);
      AddMark(code, l, pub, lo, mid, marks, jumps);
      AddPartForm(code + [Mark(l)], a, pub, lo, mid, marks + {l}, jumps, ways);
      var all := code + [Mark(l)] + a.code;
      BelowMore(pub, mid.lab, a.c.lab);
      AddBodies(all, cases.rest, labels[1..], end, cont, pub, lo, a.c, marks + {l}, jumps + ways);
      assert all + rest.code == code + b.code;
      assert marks + {l} + Members(labels[1..]) == marks + Members(labels);
      assert jumps + ways + ways == jumps + ways;
    }
  }

  lemma NoMembers()
    ensures Members([]) == {}
  {
  }

  lemma BelowMore(pub: set<Label>, n: Label, m: Label)
    requires Below(pub, n) && n <= m
    ensures Below(pub, m)
  {
  }

  lemma WaysIn(brk: Option<Label>, cont: Option<Label>, pub: set<Label>, n: Label)
    requires Ways(brk, cont) <= pub && Below(pub, n)
    ensures Below(Ways(brk, cont), n)
  {
  }

  /** The public labels of a switch: the ways out, its end and its cases. */
  function SwitchLabels(out: set<Label>, end: Label, labels: seq<Label>): set<Label> {
    out + {end} + Members(labels)
  }

  lemma SwitchLabelsFacts(out: set<Label>, c: Counters, a: Counters, t: Tests)
    requires Below(out, c.lab) && c.lab < a.lab && a.lab <= t.c.lab
    requires forall i :: 0 <= i < |t.labels| ==> a.lab <= t.labels[i] < t.c.lab
    requires forall i, j :: 0 <= i < j < |t.labels| ==> t.labels[i] < t.labels[j]
    ensures var pub := SwitchLabels(out, c.lab, t.labels);
            && Below(pub, t.c.lab) && OnlyCases(pub, t.labels, a.lab, t.c.lab) && Members(t.labels) <= pub
            && Distinct(t.labels)
            && (forall lo: Counters, hi: Counters :: c.lab < lo.lab && hi.lab <= a.lab ==> Outside(pub, lo, hi))
            && out <= pub && c.lab in pub && c.lab !in Members(t.labels)
            && (forall l :: l in Members(t.labels) ==> c.lab <= l < t.c.lab)
  {
  }

  lemma SwitchShape(end: Label, a: Fragment, t: Tests, b: Part)
    ensures Switched(end, a, t, b).code
         == a.code + t.code + [Jmp(if t.fallback.Some? then t.fallback.value else end)] + b.code + [Mark(end)]
    ensures Switched(end, a, t, b).c == b.c
  {
  }

  lemma SwitchForm(e: Expr, cases: Cases, c: Counters, cont: Option<Label>, out: set<Label>)
    requires Below(out, c.lab) && (cont.Some? ==> cont.value in out)
    ensures var a := LowerExpr(e, NextLabels(c, 1));
            var t := LowerTests(cases, a.o, a.c);
            PartForm(Switched(c.lab, a, t, LowerBodies(cases, t.labels, t.c, c.lab, cont)), c, out)
    decreases cases, 1
  {
    hide *;
    var mid := NextLabels(c, 1);
    var a := LowerExpr(e, mid);
    var t := LowerTests(cases, a.o, a.c);
    var b := LowerBodies(cases, t.labels, t.c, c.lab, cont);
    var f := Switched(c.lab, a, t, b);
    SwitchShape(c.lab, a, t, b);
    LabelsAre(c, 1);
    TestLabels(cases, a.o, a.c);
    SwitchLabelsFacts(out, c, a.c, t);
    var pub := SwitchLabels(out, c.lab, t.labels);
    var ways := Ways(Some(c.lab), cont);
    SwitchWays(c.lab, cont, out, pub);
    ExprHasForm(e, mid);
    StartWith(a, pub, mid);
    AddTests(a.code, cases, a.o, pub, mid, a.c, {}, {});
    var j := Members(t.labels);
    assert {} + j == j;
    var target := if t.fallback.Some? then t.fallback.value else c.lab;
    if t.fallback.Some? { InMembers(t.fallback.value, t.labels); }
    AddJump(a.code + t.code, target, pub, mid, t.c, {}, j);
    AddBodies(a.code + t.code + [Jmp(target)], cases, t.labels, c.lab, cont, pub, mid, t.c, {}, j + {target});
    var x := a.code + t.code + [Jmp(target)] + b.code;
    AddMark(x, c.lab, pub, mid, b.c, {} + j, j + {target} + ways);
    PartDone(f, pub, c, mid, {} + j + {c.lab}, j + {target} + ways, out);
  }

  lemma LabelsAre(c: Counters, n: nat)
    ensures NextLabels(c, n).lab == c.lab + n && NextLabels(c, n).vreg == c.vreg
  {
  }

  lemma InMembers(l: Label, ls: seq<Label>)
    requires l in ls
    ensures l in Members(ls)
  {
  }

  lemma SwitchWays(end: Label, cont: Option<Label>, out: set<Label>, pub: set<Label>)
    requires cont.Some? ==> cont.value in out
    requires out <= pub && end in pub
    ensures Ways(Some(end), cont) <= pub && Ways(Some(end), cont) <= out + {end}
  {
  }

  // ----- every statement -----

  lemma AllHasForm(ss: Stmts, c: Counters, brk: Option<Label>, cont: Option<Label>)
    requires Below(Ways(brk, cont), c.lab)
    ensures PartForm(LowerAll(ss, c, brk, cont), c, Ways(brk, cont))
    decreases ss, 0
  {
    hide PartForm, Below, LowerStmt;
    if ss.Nil? {
      NothingForm(c, Ways(brk, cont));
    } else {
      var a := LowerStmt(ss.head, c, brk, cont);
      StmtHasForm(ss.head, c, brk, cont);
      BelowMore(Ways(brk, cont), c.lab, a.c.lab);
      AllHasForm(ss.tail, a.c, brk, cont);
      SequenceForm(a, LowerAll(ss.tail, a.c, brk, cont), c, Ways(brk, cont));
    }
  }

  lemma WaysAre(brk: Option<Label>, cont: Option<Label>)
    ensures brk.Some? ==> brk.value in Ways(brk, cont)
    ensures cont.Some? ==> cont.value in Ways(brk, cont)
    ensures brk.Some? && cont.Some? ==> Ways(brk, cont) == {brk.value, cont.value}
  {
  }

  lemma TwoBelow(l: Label, m: Label, n: Label)
    requires l < n && m < n
    ensures Below({l, m}, n)
  {
  }

  lemma {:induction false} StmtHasForm(st: Stmt, c: Counters, brk: Option<Label>, cont: Option<Label>)
    requires Below(Ways(brk, cont), c.lab)
    ensures PartForm(LowerStmt(st, c, brk, cont), c, Ways(brk, cont))
    decreases st, 1
  {
    var out := Ways(brk, cont);
    WaysAre(brk, cont);
    hide PartForm, Below, ExprForm, LowerExpr, LowerAll, Ways;
    match st
    case ExprStmt(e) =>
      ExprHasForm(e, c);
      ExprPartForm(LowerExpr(e, c), c, out);
    case VarDecl(k, init) =>
      if init.None? {
        NothingForm(c, out);
      } else {
        var a := LowerExpr(init.value, c);
        ExprHasForm(init.value, c);
        ExprThenForm(a, StoreStack(k, a.o), c, out);
      }
    case Block(body) => AllHasForm(body, c, brk, cont);
    case If(_, _, _) => IfHasForm(st, c, brk, cont);
    case While(_, _) => LoopHasForm(st, c, brk, cont);
    case DoWhile(_, _) => LoopHasForm(st, c, brk, cont);
    case For(_, _, _, _) => ForHasForm(st, c, brk, cont);
    case Switch(e, cases) => SwitchForm(e, cases, c, cont, out);
    case Break => JumpOutForm(brk, c, out);
    case Continue => JumpOutForm(cont, c, out);
    case Return(v) =>
      if v.None? {
        ReturnZeroForm(c, out);
      } else {
        var a := LowerExpr(v.value, c);
        ExprHasForm(v.value, c);
        ExprThenForm(a, Ret(a.o), c, out);
      }
  }

  lemma IfHasForm(st: Stmt, c: Counters, brk: Option<Label>, cont: Option<Label>)
    requires st.If? && Below(Ways(brk, cont), c.lab)
    ensures PartForm(LowerStmt(st, c, brk, cont), c, Ways(brk, cont))
    decreases st, 0
  {
    hide *;
    LowerIf(st, c, brk, cont);
    var n := if st.no.None? then 1 else 2;
    LabelsAre(c, n);
    var out, mid := Ways(brk, cont), NextLabels(c, n);
    var a := LowerExpr(st.cond, mid);
    ExprHasForm(st.cond, mid);
    BelowMore(out, c.lab, a.c.lab);
    var b := LowerStmt(st.yes, a.c, brk, cont);
    StmtHasForm(st.yes, a.c, brk, cont);
    if st.no.None? {
      IfThenForm(c, a, b, out);
    } else {
      BelowMore(out, c.lab, b.c.lab);
      StmtHasForm(st.no.value, b.c, brk, cont);
      IfElseForm(c, a, b, LowerStmt(st.no.value, b.c, brk, cont), out);
    }
  }

  lemma LoopHasForm(st: Stmt, c: Counters, brk: Option<Label>, cont: Option<Label>)
    requires (st.While? || st.DoWhile?) && Below(Ways(brk, cont), c.lab)
    ensures PartForm(LowerStmt(st, c, brk, cont), c, Ways(brk, cont))
    decreases st, 0
  {
    hide PartForm, Below, ExprForm, LowerExpr, LowerAll, Ways, Whiled, DoWhiled;
    var out, l := Ways(brk, cont), c.lab;
    if st.While? {
      var mid := NextLabels(c, 2);
      var a := LowerExpr(st.cond, mid);
      ExprHasForm(st.cond, mid);
      WaysAre(Some(l + 1), Some(l));
      TwoBelow(l, l + 1, a.c.lab);
      assert {l + 1, l} == {l, l + 1};
      StmtHasForm(st.body1, a.c, Some(l + 1), Some(l));
      WhileForm(c, a, LowerStmt(st.body1, a.c, Some(l + 1), Some(l)), out);
    } else {
      var mid := NextLabels(c, 3);
      WaysAre(Some(l + 2), Some(l + 1));
      TwoBelow(l + 1, l + 2, mid.lab);
      var b := LowerStmt(st.body1, mid, Some(l + 2), Some(l + 1));
      assert {l + 2, l + 1} == {l + 1, l + 2};
      StmtHasForm(st.body1, mid, Some(l + 2), Some(l + 1));
      ExprHasForm(st.cond, b.c);
      DoWhileForm(c, b, LowerExpr(st.cond, b.c), out);
    }
  }

  lemma ForHasForm(st: Stmt, c: Counters, brk: Option<Label>, cont: Option<Label>)
    requires st.For? && Below(Ways(brk, cont), c.lab)
    ensures PartForm(LowerStmt(st, c, brk, cont), c, Ways(brk, cont))
    decreases st, 0
  {
    hide *;
    LowerFor(st, c, brk, cont);
    LabelsAre(c, 3);
    var out, l, mid := Ways(brk, cont), c.lab, NextLabels(c, 3);
    BelowMore(out, l, mid.lab);
    var i := if st.start.Some? then LowerStmt(st.start.value, mid, brk, cont) else Part([], mid);
    if st.start.Some? { StmtHasForm(st.start.value, mid, brk, cont); } else { NothingForm(mid, out); }
    var test := LowerTest(st.test, l + 2, i.c);
    TestForm(st.test, l + 2, i.c);
    WaysAre(Some(l + 2), Some(l + 1));
    TwoBelow(l + 1, l + 2, test.c.lab);
    assert {l + 2, l + 1} == {l + 1, l + 2};
    var body := LowerStmt(st.body1, test.c, Some(l + 2), Some(l + 1));
    StmtHasForm(st.body1, test.c, Some(l + 2), Some(l + 1));
    var step := LowerStep(st.step, body.c);
    StepForm(st.step, body.c);
    LoopIs(st.test, st.step, st.body1, l, i.c);
    ForForm(c, i, test, body, step, out);
  }

  lemma LoopIs(test: Option<Expr>, step: Option<Expr>, body: Stmt, l: Label, c: Counters)
    ensures var a := LowerTest(test, l + 2, c);
            var b := LowerStmt(body, a.c, Some(l + 2), Some(l + 1));
            var e := LowerStep(step, b.c);
            LowerLoop(test, step, body, l, c) == Looped(l, a, b, e) && Looped(l, a, b, e).c == e.c
  {
  }

  // ----- functions -----

  /** Lowering any function yields the form that every pass relies on, with registers numbered from 1. */
  lemma FunctionHasForm(params: seq<Param>, body: Stmt, size: nat, first: Label)
    ensures Lowered(LowerFunction(params, body, size, first).code)
    ensures forall v: nat :: Mentioned(LowerFunction(params, body, size, first).code, v) ==>
                               1 <= v < LowerFunction(params, body, size, first).c.vreg
    ensures forall inst :: Receives(LowerFunction(params, body, size, first).code, inst) ==> inst in StoreParams(params)
  {
    var c := Counters(1, first, size);
    var ps := StoreParams(params);
    var b := LowerStmt(body, c, None, None);
    var end := FinalReturn(ps + b.code);
    assert Below(Ways(None, None), c.lab) && Ways(None, None) == {};
    assert LowerFunction(params, body, size, first).code == ps + (b.code + end);
    assert forall i :: 0 <= i < |ps| ==> ps[i].StoreArg?;
    hide LowerStmt, PartForm, Lowered, Below, Whole, Own;
    StmtHasForm(body, c, None, None);
    var whole := Part(b.code + end, b.c);
    if end == [] {
      assert b.code + end == b.code;
    } else {
      BelowNone(b.c.lab);
      ReturnZeroForm(b.c, {});
      BelowNone(c.lab);
      SequenceForm(b, Part(end, b.c), c, {});
    }
    PartFormIs(whole, c, {});
    OwnIs(whole.code, c.vreg);
    WholeIsLowered(ps, whole.code, c, b.c);
    WholeMentions(ps, whole.code, c, b.c);
  }

  lemma WholeMentions(ps: Code, code: Code, lo: Counters, hi: Counters)
    requires Whole(code, lo, hi, {}) && Own(code, lo.vreg) && (forall i :: 0 <= i < |ps| ==> ps[i].StoreArg?)
    ensures forall v: nat :: Mentioned(ps + code, v) ==> lo.vreg <= v < hi.vreg
    ensures forall inst :: Receives(ps + code, inst) ==> inst in ps
  {
    var all := ps + code;
    assert forall i :: |ps| <= i < |all| ==> all[i] == code[i - |ps|] && !all[i].StoreArg?;
    forall v: nat | Mentioned(all, v) ensures lo.vreg <= v < hi.vreg {
      var i :| 0 <= i < |all| && (v in Uses(all[i]) || Def(all[i]) == Some(v));
      if i >= |ps| { assert all[i] == code[i - |ps|]; }
    }
  }

  lemma OwnIs(code: Code, lo: nat)
    requires Own(code, lo)
    ensures forall k, v :: 0 <= k < |code| && v in Uses(code[k]) ==> v >= lo
  {
  }

  lemma BelowNone(n: Label)
    ensures Below({}, n)
  {
  }
}
