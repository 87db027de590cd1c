/** Lowering produces the form that the passes rely on. */
module LoweringForm {
  import opened Word64
  import opened IR
  import opened LoweredForm
  import opened Source
  import opened Lowering
  import opened FormParts

  /** All registers used belong to the part. */
  ghost predicate Own(code: Code, lo: nat) {
    forall k, v :: 0 <= k < |code| && v in Uses(code[k]) ==> v >= lo
  }

  ghost predicate PublicMarks(code: Code, pub: set<Label>, marks: set<Label>) {
    && (forall i :: 0 <= i < |code| && code[i].Mark? && code[i].l in pub ==> code[i].l in marks)
    && (forall i, j :: 0 <= i < |code| && 0 <= j < |code| && code[i].Mark? && code[i] == code[j] && code[i].l in pub ==>
                         i == j)
    && (forall l :: l in marks ==> Mark(l) in code)
  }

  ghost predicate PublicJumps(code: Code, pub: set<Label>, jumps: set<Label>) {
    forall i :: 0 <= i < |code| && IsJump(code[i]) && code[i].to in pub ==> code[i].to in jumps
  }

  /** The beginning of a construct: sound, with the public labels marked and jumped to so far. */
  ghost predicate Begun(code: Code, pub: set<Label>, lo: Counters, hi: Counters, marks: set<Label>, jumps: set<Label>) {
    Sound(code, pub, lo, hi) && Own(code, lo.vreg) && PublicMarks(code, pub, marks) && PublicJumps(code, pub, jumps)
  }

  lemma BegunIs(code: Code, pub: set<Label>, lo: Counters, hi: Counters, marks: set<Label>, jumps: set<Label>)
    ensures Begun(code, pub, lo, hi, marks, jumps) <==>
              Sound(code, pub, lo, hi) && Own(code, lo.vreg) && PublicMarks(code, pub, marks)
                && PublicJumps(code, pub, jumps)
  {
  }

  lemma Begin(pub: set<Label>, c: Counters)
    ensures Begun([], pub, c, c, {}, {})
  {
    Nothing(pub, c);
  }

  lemma OwnServes(a: Code, b: Code, pub: set<Label>, v0: nat, v1: nat)
    requires Own(b, v1)
    ensures Served(a, b, pub, v0, v1)
  {
  }

  lemma OwnBoth(a: Code, b: Code, lo: nat)
    requires Own(a, lo) && Own(b, lo)
    ensures Own(a + b, lo)
  {
    ConcatAt(a, b);
  }

  lemma OwnMore(a: Code, lo: nat, hi: nat)
    requires Own(a, hi) && lo <= hi
    ensures Own(a, lo)
  {
  }

  lemma MarksWithPart(a: Code, b: Code, pub: set<Label>, marks: set<Label>)
    requires PublicMarks(a, pub, marks) && Private(b, pub)
    ensures PublicMarks(a + b, pub, marks)
  {
    ConcatAt(a, b);
    forall i, j | 0 <= i < |a + b| && 0 <= j < |a + b| && (a + b)[i].Mark? && (a + b)[i] == (a + b)[j]
              && (a + b)[i].l in pub ensures i == j {
    }
  }

  lemma JumpsWithPart(a: Code, b: Code, pub: set<Label>, jumps: set<Label>, more: set<Label>)
    requires PublicJumps(a, pub, jumps) && PublicJumps(b, pub, more)
    ensures PublicJumps(a + b, pub, jumps + more)
  {
    ConcatAt(a, b);
  }

  /** The jumps of a complete part to public labels go to the labels it leaves to. */
  lemma PartJumps(part: Code, lo: Counters, hi: Counters, out: set<Label>, pub: set<Label>)
    requires Whole(part, lo, hi, out) && Outside(pub, lo, hi)
    ensures PublicJumps(part, pub, out)
  {
  }

  /** A complete part is appended. */
  lemma AddPart(code: Code, part: Code, pub: set<Label>, lo: Counters, mid: Counters, hi: Counters, marks: set<Label>,
                jumps: set<Label>, out: set<Label>)
    requires Begun(code, pub, lo, mid, marks, jumps)
    requires Whole(part, mid, hi, out) && Own(part, mid.vreg) && out <= pub && Outside(pub, mid, hi)
    ensures Begun(code + part, pub, lo, hi, marks, jumps + out)
  {
    hide *;
    BegunIs(code, pub, lo, mid, marks, jumps);
    SoundRange(code, pub, lo, mid);
    Inside(part, mid, hi, out, pub);
    OwnServes(code, part, pub, lo.vreg, mid.vreg);
    Concat(code, part, pub, lo, mid, hi);
    OwnMore(part, lo.vreg, mid.vreg);
    OwnBoth(code, part, lo.vreg);
    MarksWithPart(code, part, pub, marks);
    PartJumps(part, mid, hi, out, pub);
    JumpsWithPart(code, part, pub, jumps, out);
    BegunIs(code + part, pub, lo, hi, marks, jumps + out);
  }

  lemma SoundRange(code: Code, pub: set<Label>, lo: Counters, hi: Counters)
    requires Sound(code, pub, lo, hi)
    ensures lo.lab <= hi.lab && lo.vreg <= hi.vreg
  {
  }

  /** What was exported before is still exported behind a complete part; so is what the part exports. */
  lemma ExportWithPart(code: Code, part: Code, pub: set<Label>, lo: Counters, mid: Counters, hi: Counters,
                       marks: set<Label>, jumps: set<Label>, out: set<Label>, v: nat)
    requires Begun(code, pub, lo, mid, marks, jumps)
    requires Whole(part, mid, hi, out) && out <= pub && Outside(pub, mid, hi)
    requires if v < mid.vreg then Export(code, pub, v) else Export(part, out, v)
    ensures Export(code + part, pub, v)
  {
    hide *;
    BegunIs(code, pub, lo, mid, marks, jumps);
    Inside(part, mid, hi, out, pub);
    if v < mid.vreg {
      ExportPast(code, part, pub, lo, mid, hi, v);
    } else {
      ExportIn(part, out, pub, v);
      ExportLast(code, part, pub, lo, mid, hi, v);
    }
  }

  lemma MarksWithInst(a: Code, i: Inst, pub: set<Label>, marks: set<Label>)
    requires PublicMarks(a, pub, marks) && (i.Mark? ==> i.l in pub && i.l !in marks)
    ensures PublicMarks(a + [i], pub, if i.Mark? then marks + {i.l} else marks)
  {
    var code := a + [i];
    assert code[|a|] == i;
    assert forall k :: 0 <= k < |a| ==> code[k] == a[k];
    assert forall k, j :: 0 <= k < |a| && 0 <= j < |a| && a[k].Mark? && a[k] == a[j] && a[k].l in pub ==> k == j;
  }

  lemma JumpsWithInst(a: Code, i: Inst, pub: set<Label>, jumps: set<Label>)
    requires PublicJumps(a, pub, jumps)
    ensures PublicJumps(a + [i], pub, if IsJump(i) then jumps + {i.to} else jumps)
  {
  }

  lemma OwnWithInst(a: Code, i: Inst, lo: nat)
    requires Own(a, lo) && forall v :: v in Uses(i) ==> v >= lo
    ensures Own(a + [i], lo)
  {
  }

  /** One instruction is appended. */
  lemma AddInst(code: Code, i: Inst, pub: set<Label>, lo: Counters, mid: Counters, hi: Counters, marks: set<Label>,
                jumps: set<Label>)
    requires Begun(code, pub, lo, mid, marks, jumps) && Plain(i, pub, mid, hi) && (i.Mark? ==> i.l !in marks)
    requires forall v :: v in Uses(i) ==> v >= lo.vreg && Export(code, pub, v)
    ensures Begun(code + [i], pub, lo, hi, if i.Mark? then marks + {i.l} else marks, if IsJump(i) then jumps + {i.to}
                else jumps)
    ensures Def(i).Some? ==> Export(code + [i], pub, Def(i).value)
  {
    hide Sound, Own, PublicMarks, PublicJumps, Export, Uses, Private, Def, IsJump;
    Append(code, i, pub, lo, mid, hi);
    MarksWithInst(code, i, pub, marks);
    JumpsWithInst(code, i, pub, jumps);
    OwnWithInst(code, i, lo.vreg);
  }

  lemma ExportWithInst(code: Code, i: Inst, pub: set<Label>, lo: Counters, mid: Counters, hi: Counters,
                       marks: set<Label>, jumps: set<Label>, v: nat)
    requires Begun(code, pub, lo, mid, marks, jumps) && Plain(i, pub, mid, hi) && !i.Mark? && v < mid.vreg
        && Export(code, pub, v)
    ensures Export(code + [i], pub, v)
  {
    hide Sound, Export;
    AppendPast(code, i, pub, lo, mid, hi, v);
  }

  /** The construct is complete: its labels have been marked, and its jumps go to them or out. */
  lemma Finish(code: Code, pub: set<Label>, lo: Counters, mid: Counters, hi: Counters, marks: set<Label>,
               jumps: set<Label>, out: set<Label>)
    requires Begun(code, pub, mid, hi, marks, jumps) && lo.lab <= mid.lab && lo.vreg == mid.vreg && out <= pub
    requires forall l :: l in marks ==> lo.lab <= l < hi.lab && l !in out
    requires jumps <= marks + out
    ensures Whole(code, lo, hi, out) && Own(code, lo.vreg)
  {
    assert Paired(code, pub, lo.lab, hi.lab, out);
    hide Sound, Paired, Whole, Own;
    Complete(code, pub, lo, mid, hi, out);
  }

  // ----- expressions -----

  /** A lowered expression is complete, uses nothing from before it and exports its value. */
  ghost predicate ExprForm(f: Fragment, c: Counters) {
    Whole(f.code, c, f.c, {}) && Own(f.code, c.vreg) && f.o.Reg? && Export(f.code, {}, f.o.v)
  }

  lemma ExprFormIs(f: Fragment, c: Counters)
    ensures ExprForm(f, c) <==> Whole(f.code, c, f.c, {}) && Own(f.code, c.vreg) && f.o.Reg?
                                && Export(f.code, {}, f.o.v)
  {
  }

  /** A lowered expression is appended; its value may be used, and so may what could be used before. */
  lemma AddExpr(code: Code, f: Fragment, pub: set<Label>, lo: Counters, mid: Counters, marks: set<Label>,
                jumps: set<Label>)
    requires Begun(code, pub, lo, mid, marks, jumps) && ExprForm(f, mid) && Outside(pub, mid, f.c)
    ensures Begun(code + f.code, pub, lo, f.c, marks, jumps)
    ensures f.o.v >= mid.vreg ==> Export(code + f.code, pub, f.o.v)
  {
    hide *;
    ExprFormIs(f, mid);
    AddPart(code, f.code, pub, lo, mid, f.c, marks, jumps, {});
    assert jumps + {} == jumps;
    if f.o.v >= mid.vreg { ExportWithPart(code, f.code, pub, lo, mid, f.c, marks, jumps, {}, f.o.v); }
  }

  lemma ExportWithExpr(code: Code, f: Fragment, pub: set<Label>, lo: Counters, mid: Counters, marks: set<Label>,
                       jumps: set<Label>, v: nat)
    requires Begun(code, pub, lo, mid, marks, jumps) && ExprForm(f, mid) && Outside(pub, mid, f.c) && v < mid.vreg
        && Export(code, pub, v)
    ensures Export(code + f.code, pub, v)
  {
    hide *;
    ExprFormIs(f, mid);
    ExportWithPart(code, f.code, pub, lo, mid, f.c, marks, jumps, {}, v);
  }

  lemma NoPublic(lo: Counters, hi: Counters)
    ensures Outside({}, lo, hi)
  {
  }

  lemma BelowOutside(pub: set<Label>, lo: Counters, hi: Counters)
    requires forall l :: l in pub ==> l < lo.lab
    ensures Outside(pub, lo, hi)
  {
  }

  /** An expression without labels of its own is complete as soon as it is begun. */
  lemma ExprDone(code: Code, c: Counters, f: Fragment)
    requires Begun(code, {}, c, f.c, {}, {}) && f.code == code && f.o.Reg? && Export(code, {}, f.o.v)
    ensures ExprForm(f, c)
  {
    hide Begun, Whole, Own, Export;
    Finish(code, {}, c, c, f.c, {}, {}, {});
  }

  lemma StartWith(f: Fragment, pub: set<Label>, c: Counters)
    requires ExprForm(f, c) && Outside(pub, c, f.c) && f.o.v >= c.vreg
    ensures Begun(f.code, pub, c, f.c, {}, {}) && Export(f.code, pub, f.o.v)
  {
    hide ExprForm, Begun, Outside, Export;
    Begin(pub, c);
    AddExpr([], f, pub, c, c, {}, {});
    assert [] + f.code == f.code;
  }

  lemma SimpleForm(i: Inst, c: Counters)
    requires Plain(i, {}, c, NextReg(c)) && Def(i) == Some(c.vreg) && Uses(i) == {} && !i.Mark? && !IsJump(i)
    ensures ExprForm(Fragment([i], Reg(c.vreg), NextReg(c)), c)
  {
    hide Begun, Export, Plain;
    Begin({}, c);
    AddInst([], i, {}, c, c, NextReg(c), {}, {});
    assert [] + [i] == [i];
    ExprDone([i], c, Fragment([i], Reg(c.vreg), NextReg(c)));
  }

  /** One more instruction that defines the next register from the value. */
  lemma ThenForm(a: Fragment, i: Inst, c: Counters)
    requires ExprForm(a, c) && a.o.Reg? && c.vreg <= a.o.v < a.c.vreg
    requires Plain(i, {}, a.c, NextReg(a.c)) && Def(i) == Some(a.c.vreg) && Uses(i) <= {a.o.v} && !i.Mark? && !IsJump(i)
    ensures ExprForm(Then(a, i), c)
  {
    hide Begun, Export, Plain, ExprForm;
    NoPublic(c, a.c);
    StartWith(a, {}, c);
    AddInst(a.code, i, {}, c, a.c, NextReg(a.c), {}, {});
    ExprDone(a.code + [i], c, Then(a, i));
  }

  /** Both operands, in a construct without labels. */
  lemma PairBegun(a: Fragment, b: Fragment, c: Counters)
    requires ExprForm(a, c) && ExprForm(b, a.c) && a.o.Reg? && c.vreg <= a.o.v < a.c.vreg && b.o.Reg?
        && a.c.vreg <= b.o.v
    ensures Begun(a.code + b.code, {}, c, b.c, {}, {}) && Export(a.code + b.code, {}, a.o.v)
        && Export(a.code + b.code, {}, b.o.v)
  {
    hide Begun, Export, ExprForm;
    NoPublic(c, a.c);
    NoPublic(a.c, b.c);
    StartWith(a, {}, c);
    AddExpr(a.code, b, {}, c, a.c, {}, {});
    ExportWithExpr(a.code, b, {}, c, a.c, {}, {}, a.o.v);
  }

  lemma OperatedForm(op: BinOp, a: Fragment, b: Fragment, c: Counters)
    requires ExprForm(a, c) && ExprForm(b, a.c) && a.o.Reg? && c.vreg <= a.o.v < a.c.vreg && b.o.Reg?
        && a.c.vreg <= b.o.v < b.c.vreg
    ensures ExprForm(Operated(op, a, b), c)
  {
    var i := Bin(op, b.c.vreg, a.o, b.o);
    assert Plain(i, {}, b.c, NextReg(b.c)) && Uses(i) == {a.o.v, b.o.v};
    hide Begun, Export, Plain, ExprForm, Uses;
    PairBegun(a, b, c);
    AddInst(a.code + b.code, i, {}, c, b.c, NextReg(b.c), {}, {});
    ExprDone(a.code + b.code + [i], c, Operated(op, a, b));
  }

  lemma CommaForm(a: Fragment, b: Fragment, c: Counters)
    requires ExprForm(a, c) && ExprForm(b, a.c) && a.o.Reg? && c.vreg <= a.o.v < a.c.vreg && b.o.Reg?
        && a.c.vreg <= b.o.v < b.c.vreg
    ensures ExprForm(Fragment(a.code + b.code, b.o, b.c), c)
  {
    hide Begun, Export, ExprForm;
    PairBegun(a, b, c);
    ExprDone(a.code + b.code, c, Fragment(a.code + b.code, b.o, b.c));
  }

  lemma PuttingPlain(p: Place, o: Opnd, c: Counters)
    requires o.Reg? && o.v < c.vreg
    ensures var i := Putting(p, o); Plain(i, {}, c, c) && Uses(i) == {o.v} && !i.Mark? && !IsJump(i) && Def(i) == None
  {
  }

  lemma FetchingPlain(p: Place, c: Counters)
    ensures var i := Fetching(p, c.vreg);
            Plain(i, {}, c, NextReg(c)) && Uses(i) == {} && !i.Mark? && !IsJump(i) && Def(i) == Some(c.vreg)
  {
  }

  lemma AddressingPlain(p: Place, c: Counters)
    ensures var i := Addressing(p, c.vreg);
            Plain(i, {}, c, NextReg(c)) && Uses(i) == {} && !i.Mark? && !IsJump(i) && Def(i) == Some(c.vreg)
  {
  }

  lemma AssignForm(p: Place, a: Fragment, c: Counters)
    requires ExprForm(a, c) && a.o.Reg? && c.vreg <= a.o.v < a.c.vreg
    ensures ExprForm(Fragment(a.code + [Putting(p, a.o)], a.o, a.c), c)
  {
    var i := Putting(p, a.o);
    PuttingPlain(p, a.o, a.c);
    hide Begun, Export, Plain, ExprForm, Uses, Putting;
    NoPublic(c, a.c);
    StartWith(a, {}, c);
    AddInst(a.code, i, {}, c, a.c, a.c, {}, {});
    ExportWithInst(a.code, i, {}, c, a.c, a.c, {}, {}, a.o.v);
    ExprDone(a.code + [i], c, Fragment(a.code + [i], a.o, a.c));
  }

  lemma AssignViaForm(a: Fragment, b: Fragment, c: Counters)
    requires ExprForm(a, c) && ExprForm(b, a.c) && a.o.Reg? && c.vreg <= a.o.v < a.c.vreg && b.o.Reg?
        && a.c.vreg <= b.o.v < b.c.vreg
    ensures ExprForm(Fragment(a.code + b.code + [IR.Store(b.o, 0, a.o, 8)], a.o, b.c), c)
  {
    var i := IR.Store(b.o, 0, a.o, 8);
    assert Plain(i, {}, b.c, b.c) && Uses(i) == {a.o.v, b.o.v};
    hide Begun, Export, Plain, ExprForm, Uses;
    PairBegun(a, b, c);
    AddInst(a.code + b.code, i, {}, c, b.c, b.c, {}, {});
    ExportWithInst(a.code + b.code, i, {}, c, b.c, b.c, {}, {}, a.o.v);
    ExprDone(a.code + b.code + [i], c, Fragment(a.code + b.code + [i], a.o, b.c));
  }

  lemma BinPlain(op: BinOp, o: Opnd, c: Counters)
    requires o.Reg? ==> o.v < c.vreg
    ensures var i := Bin(op, c.vreg + 1, Reg(c.vreg), o);
            && Plain(i, {}, NextReg(c), NextReg(NextReg(c))) && Uses(i) == {c.vreg} + RegsOf(o)
            && !i.Mark? && !IsJump(i) && Def(i) == Some(c.vreg + 1)
    ensures RegsOf(o) == if o.Reg? then {o.v} else {}
    ensures NextReg(c).vreg == c.vreg + 1 && NextReg(NextReg(c)) == c.(vreg := c.vreg + 2)
  {
  }

  /** Read a place, combine with an operand, write back: behind code in which the operand may be used. */
  lemma CombineForm(code: Code, p: Place, op: BinOp, o: Opnd, lo: Counters, c: Counters)
    requires Begun(code, {}, lo, c, {}, {}) && (o.Reg? ==> lo.vreg <= o.v < c.vreg && Export(code, {}, o.v))
        && lo.vreg <= c.vreg
    ensures var all := code + [Fetching(p, c.vreg), Bin(op, c.vreg + 1, Reg(c.vreg), o), Putting(p, Reg(c.vreg + 1))];
            var hi := c.(vreg := c.vreg + 2);
            Begun(all, {}, lo, hi, {}, {}) && Export(all, {}, c.vreg) && Export(all, {}, c.vreg + 1)
  {
    hide *;
    var c1, c2 := NextReg(c), NextReg(NextReg(c));
    var i, j, k := Fetching(p, c.vreg), Bin(op, c.vreg + 1, Reg(c.vreg), o), Putting(p, Reg(c.vreg + 1));
    FetchingPlain(p, c);
    BinPlain(op, o, c);
    PuttingPlain(p, Reg(c.vreg + 1), c2);
    AddInst(code, i, {}, lo, c, c1, {}, {});
    if o.Reg? { ExportWithInst(code, i, {}, lo, c, c1, {}, {}, o.v); }
    AddInst(code + [i], j, {}, lo, c1, c2, {}, {});
    ExportWithInst(code + [i], j, {}, lo, c1, c2, {}, {}, c.vreg);
    AddInst(code + [i] + [j], k, {}, lo, c2, c2, {}, {});
    ExportWithInst(code + [i] + [j], k, {}, lo, c2, c2, {}, {}, c.vreg);
    ExportWithInst(code + [i] + [j], k, {}, lo, c2, c2, {}, {}, c.vreg + 1);
    assert code + [i] + [j] + [k] == code + [i, j, k];
  }

  lemma UpdatedForm(op: BinOp, p: Place, a: Fragment, c: Counters)
    requires ExprForm(a, c) && a.o.Reg? && c.vreg <= a.o.v < a.c.vreg
    ensures ExprForm(Updated(op, p, a), c)
  {
    hide Begun, Export, ExprForm;
    NoPublic(c, a.c);
    StartWith(a, {}, c);
    CombineForm(a.code, p, op, a.o, c, a.c);
    ExprDone(Updated(op, p, a).code, c, Updated(op, p, a));
  }

  lemma BumpedForm(up: bool, prefix: bool, p: Place, c: Counters)
    ensures ExprForm(Bumped(up, prefix, p, c), c)
  {
    hide Begun, Export, ExprForm;
    Begin({}, c);
    CombineForm([], p, if up then Add else Sub, Imm(1), c, c);
    var f := Bumped(up, prefix, p, c);
    assert [] + f.code == f.code;
    ExprDone(f.code, c, f);
  }

  // ----- `&&` and `||` -----

  function DecisionTail(r: nat, l: Label, early: Word): Code
    requires early == 0 || early == 1
  {
    [Const(r, 1 - early), Jmp(l + 1), Mark(l), Const(r, early), Mark(l + 1)]
  }

  lemma TailFacts(r: nat, l: Label, early: Word, pub: set<Label>, hi: Label)
    requires (early == 0 || early == 1) && l in pub && l + 1 in pub
    ensures var tail := DecisionTail(r, l, early);
            && MarksFrom(tail, pub, hi, hi) && JumpsFrom(tail, pub, hi, hi) && NoArgs(tail)
            && (forall i :: 0 <= i < |tail| ==> Uses(tail[i]) == {})
            && (forall i :: 0 <= i < |tail| && Def(tail[i]).Some? ==> tail[i].Const? && Def(tail[i]) == Some(r))
  {
  }

  lemma DecisionDefs(code: Code, tail: Code, r: nat, lo: nat, hi: nat)
    requires DefsFrom(code, lo, hi) && r < lo <= hi
    requires forall i :: 0 <= i < |tail| && Def(tail[i]).Some? ==> tail[i].Const? && Def(tail[i]) == Some(r)
    ensures DefsFrom(code + tail, r, hi)
  {
    var all := code + tail;
    ConcatAt(code, tail);
    assert forall i :: 0 <= i < |all| && Def(all[i]) == Some(r) ==> all[i].Const?;
    assert forall i :: 0 <= i < |code| && Def(code[i]).Some? ==> Def(code[i]).value != r;
  }

  lemma DecisionUse(code: Code, tail: Code, pub: set<Label>, r: nat, mid: Counters, hi: Counters, k: nat, v: nat)
    requires Sound(code, pub, mid, hi) && Own(code, mid.vreg) && r < mid.vreg
    requires JumpsFrom(tail, pub, hi.lab, hi.lab)
    requires forall i :: 0 <= i < |tail| ==> Uses(tail[i]) == {}
    requires forall i :: 0 <= i < |tail| && Def(tail[i]).Some? ==> Def(tail[i]) == Some(r)
    requires k < |code + tail| && v in Uses((code + tail)[k])
    ensures v < hi.vreg && UseFrom(code + tail, pub, r, v, k) && v >= r
  {
    var all := code + tail;
    ConcatAt(code, tail);
    assert k < |code| && v in Uses(code[k]) && UseFrom(code, pub, mid.vreg, v, k);
    hide Uses, IsJump;
    forall j | 0 <= j < |all| && Def(all[j]) == Some(v) ensures j < k && WayFrom(all, pub, j, k) {
      assert j < |code|;
      WayLeft(code, tail, pub, mid.lab, hi.lab, hi.lab, j, k);
    }
  }

  /** The two ways of setting the result: constants for a register that nothing else mentions. */
  lemma DecisionForm(code: Code, pub: set<Label>, r: nat, mid: Counters, hi: Counters, l: Label, early: Word)
    requires Sound(code, pub, mid, hi) && Own(code, mid.vreg) && r < mid.vreg && l in pub && l + 1 in pub
        && (early == 0 || early == 1)
    ensures var all := code + DecisionTail(r, l, early);
            Sound(all, pub, mid.(vreg := r), hi) && Own(all, r)
  {
    var tail := DecisionTail(r, l, early);
    var all := code + tail;
    TailFacts(r, l, early, pub, hi.lab);
    ConcatLabels(code, tail, pub, mid.lab, hi.lab, hi.lab);
    DecisionDefs(code, tail, r, mid.vreg, hi.vreg);
    forall k, v | 0 <= k < |all| && v in Uses(all[k]) ensures v < hi.vreg && UseFrom(all, pub, r, v, k) && v >= r {
      DecisionUse(code, tail, pub, r, mid, hi, k, v);
    }
    hide MarksFrom, JumpsFrom, DefsFrom, UseFrom, Uses, Export, DecisionTail;
  }

  /** The result: two arms, the end behind them reached from the first only. */
  lemma DecisionExport(code: Code, pub: set<Label>, r: nat, lo: Counters, hi: Counters, l: Label, early: Word)
    requires DefsFrom(code, lo.vreg, hi.vreg) && r < lo.vreg && PublicJumps(code, pub, {l}) && l + 1 in pub
        && (early == 0 || early == 1)
    ensures Export(code + DecisionTail(r, l, early), {}, r)
  {
    var tail, n := DecisionTail(r, l, early), |code|;
    var all := code + tail;
    ConcatAt(code, tail);
    assert Arms(tail, 0, 3);
    hide Arms, WayFrom, Guarded;
    ArmsRight(code, tail, 0, 3);
    DecisionGuarded(code, pub, r, l, early);
    FromArms(all, {}, n, n + 3, n + 5);
    forall j | 0 <= j < |all| && Def(all[j]) == Some(r) ensures WayFrom(all, {}, j, |all|) {
      if j >= n { assert all[j] == tail[j - n]; }
      assert j == n || j == n + 3;
    }
  }

  lemma DecisionGuarded(code: Code, pub: set<Label>, r: nat, l: Label, early: Word)
    requires PublicJumps(code, pub, {l}) && l + 1 in pub && (early == 0 || early == 1)
    ensures Guarded(code + DecisionTail(r, l, early), {}, |code|, |code| + 3, |code| + 5)
  {
    var tail, n := DecisionTail(r, l, early), |code|;
    var all := code + tail;
    ConcatAt(code, tail);
    forall m, a | 0 <= m < |all| && 0 <= a < |all| && n + 3 < m < n + 5 && all[m].Mark? && IsJump(all[a])
              && all[a].to == all[m].l
      ensures n < a <= n + 5
    {
      assert m == n + 4 && all[m] == tail[4];
    }
  }

  lemma BegunDefs(code: Code, pub: set<Label>, lo: Counters, hi: Counters, marks: set<Label>, jumps: set<Label>)
    requires Begun(code, pub, lo, hi, marks, jumps)
    ensures DefsFrom(code, lo.vreg, hi.vreg)
  {
  }

  lemma DecisionLabels(code: Code, pub: set<Label>, r: nat, l: Label, early: Word)
    requires PublicMarks(code, pub, {}) && PublicJumps(code, pub, {l}) && l in pub && l + 1 in pub
        && (early == 0 || early == 1)
    ensures var all := code + DecisionTail(r, l, early);
            PublicMarks(all, pub, {l, l + 1}) && PublicJumps(all, pub, {l, l + 1})
  {
    var tail := [Const(r, 1 - early), Jmp(l + 1), Mark(l), Const(r, early), Mark(l + 1)];
    ConcatAt(code, tail);
    assert (code + tail)[|code| + 2] == Mark(l) && (code + tail)[|code| + 4] == Mark(l + 1);
  }

  lemma JumpPlain(nonzero: bool, o: Opnd, l: Label, pub: set<Label>, c: Counters)
    requires o.Reg? && o.v < c.vreg && l in pub
    ensures var i := JmpIf(nonzero, o, l);
            Plain(i, pub, c, c) && Uses(i) == {o.v} && !i.Mark? && IsJump(i) && Def(i) == None
  {
  }

  lemma DecidedForm(conjunction: bool, c: Counters, a: Fragment, b: Fragment)
    requires ExprForm(a, Deciding(c)) && ExprForm(b, a.c) && a.o.Reg? && c.vreg < a.o.v < a.c.vreg && b.o.Reg?
        && a.c.vreg <= b.o.v < b.c.vreg
    requires c.lab + 2 <= a.c.lab && a.c.lab <= b.c.lab
    ensures ExprForm(Decided(conjunction, c, a, b), c)
  {
    var mid := Deciding(c);
    var pub := {c.lab, c.lab + 1};
    var early: Word := if conjunction then 0 else 1;
    var j1, j2 := JmpIf(!conjunction, a.o, c.lab), JmpIf(!conjunction, b.o, c.lab);
    JumpPlain(!conjunction, a.o, c.lab, pub, a.c);
    JumpPlain(!conjunction, b.o, c.lab, pub, b.c);
    BelowOutside(pub, mid, a.c);
    BelowOutside(pub, a.c, b.c);
    var front := a.code + [j1] + b.code + [j2];
    var f := Decided(conjunction, c, a, b);
    assert f.code == front + DecisionTail(c.vreg, c.lab, early);
    hide Begun, Export, Plain, ExprForm, Uses, Outside, Decided;
    StartWith(a, pub, mid);
    AddInst(a.code, j1, pub, mid, a.c, a.c, {}, {});
    AddExpr(a.code + [j1], b, pub, mid, a.c, {}, {} + {c.lab});
    AddInst(a.code + [j1] + b.code, j2, pub, mid, b.c, b.c, {}, {} + {c.lab});
    assert {} + {c.lab} == {c.lab} == {c.lab} + {c.lab};
    FinishDecision(front, pub, c, mid, b.c, early, f);
  }

  lemma FinishDecision(front: Code, pub: set<Label>, c: Counters, mid: Counters, hi: Counters, early: Word, f: Fragment)
    requires Begun(front, pub, mid, hi, {}, {c.lab}) && mid == Deciding(c) && pub == {c.lab, c.lab + 1}
        && (early == 0 || early == 1)
    requires c.lab + 2 <= hi.lab
    requires f.code == front + DecisionTail(c.vreg, c.lab, early)
    requires f.o == Reg(c.vreg) && f.c == hi
    ensures ExprForm(f, c)
  {
    hide Sound, Own, PublicMarks, PublicJumps, Export, Whole, DecisionTail;
    DecisionForm(front, pub, c.vreg, mid, hi, c.lab, early);
    DecisionLabels(front, pub, c.vreg, c.lab, early);
    Finish(f.code, pub, c, mid.(vreg := c.vreg), hi, {c.lab, c.lab + 1}, {c.lab, c.lab + 1}, {});
    BegunDefs(front, pub, mid, hi, {}, {c.lab});
    DecisionExport(front, pub, c.vreg, mid, hi, c.lab, early);
  }

  // ----- `?:` -----

  lemma TempPlain(slot: int, o: Opnd, pub: set<Label>, c: Counters)
    requires o.Reg? && o.v < c.vreg
    ensures var i := StoreStack(slot, o);
            Plain(i, pub, c, c) && Uses(i) == {o.v} && !i.Mark? && !IsJump(i) && Def(i) == None
  {
  }

  lemma LabelPlain(l: Label, pub: set<Label>, c: Counters)
    requires l in pub
    ensures Plain(Mark(l), pub, c, c) && Uses(Mark(l)) == {} && Def(Mark(l)) == None && !IsJump(Mark(l))
    ensures Plain(Jmp(l), pub, c, c) && Uses(Jmp(l)) == {} && Def(Jmp(l)) == None && IsJump(Jmp(l)) && Jmp(l).to == l
  {
  }

  /** A mark is appended. */
  lemma AddMark(code: Code, l: Label, pub: set<Label>, lo: Counters, hi: Counters, marks: set<Label>, jumps: set<Label>)
    requires Begun(code, pub, lo, hi, marks, jumps) && l in pub && l !in marks
    ensures Begun(code + [Mark(l)], pub, lo, hi, marks + {l}, jumps)
  {
    LabelPlain(l, pub, hi);
    hide Begun, Plain, Export, Uses;
    AddInst(code, Mark(l), pub, lo, hi, hi, marks, jumps);
  }

  lemma AddJump(code: Code, l: Label, pub: set<Label>, lo: Counters, hi: Counters, marks: set<Label>, jumps: set<Label>)
    requires Begun(code, pub, lo, hi, marks, jumps) && l in pub
    ensures Begun(code + [Jmp(l)], pub, lo, hi, marks, jumps + {l})
  {
    LabelPlain(l, pub, hi);
    hide Begun, Plain, Export, Uses;
    AddInst(code, Jmp(l), pub, lo, hi, hi, marks, jumps);
  }

  /** The value of an expression, and a branch on it. */
  lemma AddBranch(code: Code, f: Fragment, nonzero: bool, l: Label, pub: set<Label>, lo: Counters, mid: Counters,
                  marks: set<Label>, jumps: set<Label>)
    requires Begun(code, pub, lo, mid, marks, jumps) && ExprForm(f, mid) && Outside(pub, mid, f.c)
    requires f.o.Reg? && lo.vreg <= mid.vreg <= f.o.v < f.c.vreg && l in pub
    ensures Begun(code + f.code + [JmpIf(nonzero, f.o, l)], pub, lo, f.c, marks, jumps + {l})
  {
    JumpPlain(nonzero, f.o, l, pub, f.c);
    hide Begun, Plain, Export, Uses, ExprForm, Outside;
    AddExpr(code, f, pub, lo, mid, marks, jumps);
    AddInst(code + f.code, JmpIf(nonzero, f.o, l), pub, lo, f.c, f.c, marks, jumps);
  }

  /** The value of an expression, stored to a slot. */
  lemma AddStored(code: Code, f: Fragment, slot: int, pub: set<Label>, lo: Counters, mid: Counters, marks: set<Label>,
                  jumps: set<Label>)
    requires Begun(code, pub, lo, mid, marks, jumps) && ExprForm(f, mid) && Outside(pub, mid, f.c)
    requires f.o.Reg? && lo.vreg <= mid.vreg <= f.o.v < f.c.vreg
    ensures Begun(code + f.code + [StoreStack(slot, f.o)], pub, lo, f.c, marks, jumps)
  {
    TempPlain(slot, f.o, pub, f.c);
    hide Begun, Plain, Export, Uses, ExprForm, Outside;
    AddExpr(code, f, pub, lo, mid, marks, jumps);
    AddInst(code + f.code, StoreStack(slot, f.o), pub, lo, f.c, f.c, marks, jumps);
  }

  lemma ChosenForm(c: Counters, a: Fragment, b: Fragment, d: Fragment)
    requires ExprForm(a, Choosing(c)) && ExprForm(b, a.c) && ExprForm(d, b.c)
    requires a.o.Reg? && c.vreg <= a.o.v < a.c.vreg && b.o.Reg? && a.c.vreg <= b.o.v < b.c.vreg && d.o.Reg?
        && b.c.vreg <= d.o.v < d.c.vreg
    requires c.lab + 2 <= a.c.lab <= b.c.lab <= d.c.lab
    ensures ExprForm(Chosen(c, a, b, d), c)
  {
    hide *;
    ChosenShape(c, a, b, d);
    var mid := Choosing(c);
    var pub := {c.lab, c.lab + 1};
    var slot := -(c.stack as int + 8);
    BelowOutside(pub, mid, a.c);
    BelowOutside(pub, a.c, b.c);
    BelowOutside(pub, b.c, d.c);
    var f := Chosen(c, a, b, d);
    var x1 := a.code + [JmpIf(false, a.o, c.lab)];
    var x2 := x1 + b.code + [StoreStack(slot, b.o)];
    var x3 := x2 + [Jmp(c.lab + 1)] + [Mark(c.lab)];
    var x4 := x3 + d.code + [StoreStack(slot, d.o)];
    var x5 := x4 + [Mark(c.lab + 1)];
    var last := LoadStack(d.c.vreg, slot);
    LoadPlain(slot, pub, d.c);
    Begin(pub, mid);
    AddBranch([], a, false, c.lab, pub, mid, mid, {}, {});
    assert [] + a.code + [JmpIf(false, a.o, c.lab)] == x1;
    AddStored(x1, b, slot, pub, mid, a.c, {}, {} + {c.lab});
    AddJump(x2, c.lab + 1, pub, mid, b.c, {}, {} + {c.lab});
    AddMark(x2 + [Jmp(c.lab + 1)], c.lab, pub, mid, b.c, {}, {} + {c.lab} + {c.lab + 1});
    AddStored(x3, d, slot, pub, mid, b.c, {} + {c.lab}, {} + {c.lab} + {c.lab + 1});
    AddMark(x4, c.lab + 1, pub, mid, d.c, {} + {c.lab}, {} + {c.lab} + {c.lab + 1});
    AddInst(x5, last, pub, mid, d.c, f.c, {} + {c.lab} + {c.lab + 1}, {} + {c.lab} + {c.lab + 1});
    ConstructDone(f, pub, c, mid, {} + {c.lab} + {c.lab + 1}, {} + {c.lab} + {c.lab + 1});
  }

  lemma LoadPlain(slot: int, pub: set<Label>, c: Counters)
    ensures var i := LoadStack(c.vreg, slot);
            Plain(i, pub, c, NextReg(c)) && Uses(i) == {} && Def(i) == Some(c.vreg) && !i.Mark? && !IsJump(i)
    ensures NextReg(c).vreg == c.vreg + 1 && NextReg(c).lab == c.lab
  {
  }

  lemma ChosenShape(c: Counters, a: Fragment, b: Fragment, d: Fragment)
    ensures Choosing(c).vreg == c.vreg && Choosing(c).lab == c.lab + 2
    ensures var slot := -(c.stack as int + 8);
            var f := Chosen(c, a, b, d);
            && f.o == Reg(d.c.vreg) && f.c == NextReg(d.c)
            && f.code == a.code + [JmpIf(false, a.o, c.lab)] + b.code + [StoreStack(slot, b.o)] + [Jmp(c.lab + 1)]
                + [Mark(c.lab)]
                         + d.code + [StoreStack(slot, d.o)] + [Mark(c.lab + 1)] + [LoadStack(d.c.vreg, slot)]
  {
  }

  lemma ConstructDone(f: Fragment, pub: set<Label>, c: Counters, mid: Counters, marks: set<Label>, jumps: set<Label>)
    requires Begun(f.code, pub, mid, f.c, marks, jumps) && c.lab <= mid.lab && c.vreg == mid.vreg
    requires (forall l :: l in marks ==> c.lab <= l < f.c.lab) && jumps <= marks
    requires f.o.Reg? && Export(f.code, pub, f.o.v)
    ensures ExprForm(f, c)
  {
    hide Begun, Export, Whole, Own;
    Finish(f.code, pub, c, mid, f.c, marks, jumps, {});
    ExportComplete(f.code, pub, {}, f.o.v);
  }

  // ----- calls -----

  /** The arguments of a call are appended: their values may be used, and so may what could be used before. */
  lemma {:induction false} ArgsForm(code: Code, es: Exprs, lo: Counters, mid: Counters, vs: set<nat>)
    requires Begun(code, {}, lo, mid, {}, {}) && forall v :: v in vs ==> v < mid.vreg && Export(code, {}, v)
    ensures var a := LowerArgs(es, mid);
            && Begun(code + a.code, {}, lo, a.c, {}, {})
            && (forall v :: v in vs ==> Export(code + a.code, {}, v))
            && forall v :: v in RegsOfAll(a.ops) ==> mid.vreg <= v < a.c.vreg && Export(code + a.code, {}, v)
    decreases es, 0
  {
    hide Begun, Export, LowerExpr, ExprForm;
    if es.NoExpr? {
      assert code + [] == code;
    } else {
      var a := LowerExpr(es.head, mid);
      var b := LowerArgs(es.tail, a.c);
      ExprHasForm(es.head, mid);
      NoPublic(mid, a.c);
      AddExpr(code, a, {}, lo, mid, {}, {});
      forall v | v in vs ensures Export(code + a.code, {}, v) { ExportWithExpr(code, a, {}, lo, mid, {}, {}, v); }
      ArgsForm(code + a.code, es.tail, lo, a.c, vs + {a.o.v});
      assert code + a.code + b.code == code + (a.code + b.code);
      RegsOfMore(a.o, b.ops);
    }
  }

  lemma RegsOfMore(o: Opnd, ops: seq<Opnd>)
    requires o.Reg?
    ensures RegsOfAll([o] + ops) == {o.v} + RegsOfAll(ops)
  {
    assert forall x :: x in [o] + ops <==> x == o || x in ops;
  }

  lemma CallPlain(name: nat, ops: seq<Opnd>, c: Counters)
    requires forall v :: v in RegsOfAll(ops) ==> v < c.vreg
    ensures var i := IR.Call(c.vreg, Direct(name), ops, []);
            && Plain(i, {}, c, NextReg(c)) && Uses(i) == RegsOfAll(ops)
            && !i.Mark? && !IsJump(i) && Def(i) == Some(c.vreg)
  {
    hide RegsOfAll;
  }

  lemma InvokeForm(name: nat, es: Exprs, c: Counters)
    ensures ExprForm(Invoking(name, LowerArgs(es, c)), c)
    decreases es, 1
  {
    hide *;
    var a := LowerArgs(es, c);
    var i := IR.Call(a.c.vreg, Direct(name), a.ops, []);
    Begin({}, c);
    ArgsForm([], es, c, c, {});
    assert [] + a.code == a.code;
    CallPlain(name, a.ops, a.c);
    AddInst(a.code, i, {}, c, a.c, NextReg(a.c), {}, {});
    InvokingIs(name, a);
    ExprDone(a.code + [i], c, Invoking(name, a));
  }

  lemma InvokingIs(name: nat, a: Passing)
    ensures var f := Invoking(name, a);
            && f.code == a.code + [IR.Call(a.c.vreg, Direct(name), a.ops, [])]
            && f.o == Reg(a.c.vreg) && f.c == NextReg(a.c)
  {
  }

  // ----- every expression -----

  lemma UnaryPlain(i: Inst, o: Opnd, c: Counters)
    requires o.Reg? && o.v < c.vreg
    requires i == Load(c.vreg, o, 0, 8, false) || i == Bin(Sub, c.vreg, Imm(0), o) || i == Bin(Xor, c.vreg, o, Imm(-1))
        || i == Bin(CmpEq, c.vreg, o, Imm(0))
    ensures Plain(i, {}, c, NextReg(c)) && Def(i) == Some(c.vreg) && Uses(i) <= {o.v} && !i.Mark? && !IsJump(i)
  {
  }

  lemma {:induction false} ExprHasForm(e: Expr, c: Counters)
    ensures ExprForm(LowerExpr(e, c), c)
    decreases e
  {
    hide ExprForm, Plain, Begun, Export;
    match e
    case Lit(n) =>
      ConstPlain(n, c);
      SimpleForm(Const(c.vreg, n), c);
    case Var(p) =>
      FetchingPlain(p, c);
      SimpleForm(Fetching(p, c.vreg), c);
    case Addr(p) =>
      AddressingPlain(p, c);
      SimpleForm(Addressing(p, c.vreg), c);
    case Deref(x) => UnaryHasForm(e, x, c);
    case LogNot(x) => UnaryHasForm(e, x, c);
    case Neg(x) => if x.Neg? { ExprHasForm(x.e, c); } else { UnaryHasForm(e, x, c); }
    case Inv(x) => if x.Inv? { ExprHasForm(x.e, c); } else { UnaryHasForm(e, x, c); }
    case Binary(op, l, r) =>
      ExprHasForm(l, c);
      var a := LowerExpr(l, c);
      if op.Sub? && r.Neg? {
        ExprHasForm(r.e, a.c);
        OperatedForm(Add, a, LowerExpr(r.e, a.c), c);
      } else {
        ExprHasForm(r, a.c);
        OperatedForm(op, a, LowerExpr(r, a.c), c);
      }
    case LogAnd(l, r) =>
      var a := LowerExpr(l, Deciding(c));
      ExprHasForm(l, Deciding(c));
      ExprHasForm(r, a.c);
      DecidedForm(true, c, a, LowerExpr(r, a.c));
    case LogOr(l, r) =>
      var a := LowerExpr(l, Deciding(c));
      ExprHasForm(l, Deciding(c));
      ExprHasForm(r, a.c);
      DecidedForm(false, c, a, LowerExpr(r, a.c));
    case Conditional(x, l, r) =>
      var a := LowerExpr(x, Choosing(c));
      var b := LowerExpr(l, a.c);
      ExprHasForm(x, Choosing(c));
      ExprHasForm(l, a.c);
      ExprHasForm(r, b.c);
      ChosenForm(c, a, b, LowerExpr(r, b.c));
    case Comma(l, r) =>
      var a := LowerExpr(l, c);
      ExprHasForm(l, c);
      ExprHasForm(r, a.c);
      CommaForm(a, LowerExpr(r, a.c), c);
    case Assign(p, x) =>
      ExprHasForm(x, c);
      AssignForm(p, LowerExpr(x, c), c);
    case AssignVia(p, x) =>
      var a := LowerExpr(x, c);
      ExprHasForm(x, c);
      ExprHasForm(p, a.c);
      AssignViaForm(a, LowerExpr(p, a.c), c);
    case Update(op, p, x) =>
      ExprHasForm(x, c);
      UpdatedForm(op, p, LowerExpr(x, c), c);
    case Bump(up, prefix, p) => BumpedForm(up, prefix, p, c);
    case Invoke(name, args) => InvokeForm(name, args, c);
  }

  lemma ConstPlain(n: Word, c: Counters)
    ensures Plain(Const(c.vreg, n), {}, c, NextReg(c))
  {
  }

  lemma UnaryHasForm(e: Expr, x: Expr, c: Counters)
    requires x < e && ((e.Deref? && x == e.pointer) || (e.LogNot? && x == e.e) || (e.Neg? && x == e.e && !x.Neg?)
                       || (e.Inv? && x == e.e && !x.Inv?))
    ensures ExprForm(LowerExpr(e, c), c)
    decreases e, 0
  {
    hide ExprForm, Plain;
    var a := LowerExpr(x, c);
    ExprHasForm(x, c);
    var i := if e.Deref? then Load(a.c.vreg, a.o, 0, 8, false)
             else if e.LogNot? then Bin(CmpEq, a.c.vreg, a.o, Imm(0))
             else if e.Neg? then Bin(Sub, a.c.vreg, Imm(0), a.o) else Bin(Xor, a.c.vreg, a.o, Imm(-1));
    UnaryPlain(i, a.o, a.c);
    ThenForm(a, i, c);
  }
}
