/** Lowered statements do what the source statement does: same store, same way out, same divergence. */
module StmtMeaning {
  import opened Word64
  import opened IR
  import opened Simulation
  import opened LoweredForm
  import opened Source
  import opened Lowering
  import opened ExprMeaning

  predicate OptionInScope(e: Option<Expr>, base: nat) {
    e.Some? ==> InScope(e.value, base)
  }

  predicate StmtInScope(st: Stmt, base: nat) {
    match st
    case ExprStmt(e) => InScope(e, base)
    case VarDecl(k, init) => k + base >= 0 && OptionInScope(init, base)
    case Block(body) => AllInScope(body, base)
    case If(c, yes, no) => InScope(c, base) && StmtInScope(yes, base) && (no.Some? ==> StmtInScope(no.value, base))
    case While(c, body) => InScope(c, base) && StmtInScope(body, base)
    case DoWhile(body, c) => InScope(c, base) && StmtInScope(body, base)
    case For(start, test, step, body) =>
      && (start.Some? ==> StmtInScope(start.value, base))
      && OptionInScope(test, base) && OptionInScope(step, base) && StmtInScope(body, base)
    case Switch(e, cases) => InScope(e, base) && CasesInScope(cases, base)
    case Return(v) => OptionInScope(v, base)
    case _ => true
  }

  predicate AllInScope(ss: Stmts, base: nat) {
    ss.Cons? ==> StmtInScope(ss.head, base) && AllInScope(ss.tail, base)
  }

  predicate CasesInScope(cases: Cases, base: nat) {
    cases.Case? ==> OptionInScope(cases.value, base) && AllInScope(cases.stmts, base) && CasesInScope(cases.rest, base)
  }

  /** After `n` steps the machine still runs, having performed `trace`. */
  ghost predicate StandsWith(env: Env, code: Code, s: State, n: nat, trace: Trace) {
    var now := Steps(env, code, s, n);
    now.Run? && now.data.trace == trace
  }

  /** From `p` the machine behaves as `r` says; a normal end is at `stop`, `break` and `continue` go behind
      their labels, and a time-out means that `n >= fuel` steps have been made, with what they stored. */
  ghost predicate Ends(t: Site, p: nat, stop: nat, brk: Option<Label>, cont: Option<Label>, d: Data, r: Ending,
                       fuel: nat, n: nat, d': Data) {
    match r
    case Timeout(s) => n >= fuel && StandsWith(t.env, t.code, Run(p, d), n, s.trace)
    case Fault => Traps(t, p, d, n)
    case Normal(s) => Goes(t, p, d, n, stop, d') && Matches(t.base, s, d')
    case Broke(s) => brk.Some? && Goes(t, p, d, n, Find(t.code, brk.value) + 1, d') && Matches(t.base, s, d')
    case Continued(s) => cont.Some? && Goes(t, p, d, n, Find(t.code, cont.value) + 1, d') && Matches(t.base, s, d')
    case Returned(w, s) => Steps(t.env, t.code, Run(p, d), n) == Done(w, s.trace)
  }

  // ----- putting runs together -----

  /** First from `p` to `q`, then as `r` says, with the same ways out. */
  lemma EndsAfter(t: Site, p: nat, d: Data, m: nat, q: nat, d1: Data, stop: nat, brk: Option<Label>,
                  cont: Option<Label>, r: Ending, fuel: nat, n: nat, d2: Data)
    requires Goes(t, p, d, m, q, d1) && Ends(t, q, stop, brk, cont, d1, r, fuel, n, d2)
    ensures Ends(t, p, stop, brk, cont, d, r, fuel, m + n, d2)
  {
    GoesOn(t, p, d, m, q, d1, n);
  }

  /** An abrupt end of a part is the end of the whole. */
  lemma EndsAbruptly(t: Site, p: nat, stop: nat, stop': nat, brk: Option<Label>, cont: Option<Label>, d: Data,
                     r: Ending, fuel: nat, n: nat, d': Data)
    requires Ends(t, p, stop, brk, cont, d, r, fuel, n, d') && !r.Normal?
    ensures Ends(t, p, stop', brk, cont, d, r, fuel, n, d')
  {
  }

  /** A normal end, and `m` more steps that change nothing. */
  lemma EndsOn(t: Site, p: nat, stop: nat, stop': nat, brk: Option<Label>, cont: Option<Label>, d: Data, r: Ending,
               fuel: nat, n: nat, d': Data, m: nat)
    requires Ends(t, p, stop, brk, cont, d, r, fuel, n, d') && r.Normal? && Goes(t, stop, d', m, stop', d')
    ensures Ends(t, p, stop', brk, cont, d, r, fuel, n + m, d')
  {
    GoesThen(t, p, d, n, stop, d', m, stop', d');
  }

  /** The end of a part either goes on normally or is the end of the whole. */
  lemma EndsThen(t: Site, p: nat, mid: nat, stop: nat, brk: Option<Label>, cont: Option<Label>, d: Data, r: Ending,
                 fuel: nat, n: nat, d1: Data, r2: Ending, m: nat, d2: Data)
    requires Ends(t, p, mid, brk, cont, d, r, fuel, n, d1) && r.Normal?
    requires Ends(t, mid, stop, brk, cont, d1, r2, fuel, m, d2)
    ensures Ends(t, p, stop, brk, cont, d, r2, fuel, n + m, d2)
  {
    EndsAfter(t, p, d, n, mid, d1, stop, brk, cont, r2, fuel, m, d2);
  }

  /** The body of a loop, seen from the loop: `break` leaves to `stop`, `continue` goes to `next`. */
  lemma BodyEnds(t: Site, p: nat, mid: nat, next: nat, stop: nat, end: Label, step: Label, brk: Option<Label>,
                 cont: Option<Label>, d: Data, r: Ending, fuel: nat, n: nat, d': Data)
    requires Ends(t, p, mid, Some(end), Some(step), d, r, fuel, n, d')
    requires Find(t.code, end) + 1 == stop && Find(t.code, step) + 1 == next
    ensures !AfterBody(r).Normal? ==> Ends(t, p, stop, brk, cont, d, AfterLoop(AfterBody(r)), fuel, n, d')
    ensures AfterBody(r).Normal? ==> Matches(t.base, AfterBody(r).s, d')
                                     && Goes(t, p, d, n, if r.Normal? then mid else next, d')
  {
  }

  lemma EndsNow(t: Site, p: nat, brk: Option<Label>, cont: Option<Label>, d: Data, s: Store, fuel: nat)
    requires Matches(t.base, s, d)
    ensures Ends(t, p, p, brk, cont, d, Normal(s), fuel, 0, d)
  {
    NoSteps(t, p, d);
  }

  lemma MarkPasses(t: Site, p: nat, l: Label, d: Data)
    requires Proper(t) && p < |t.code| && t.code[p] == Mark(l)
    ensures Goes(t, p, d, 1, p + 1, d) && Find(t.code, l) == p
  {
    MarkAt(t, p, l);
    Passes(t, p, d);
  }

  // ----- expressions as statements -----

  lemma EvaluateRuns(t: Site, p: nat, e: Expr, c: Counters, brk: Option<Label>, cont: Option<Label>, d: Data, s: Store,
                     fuel: nat) returns (n: nat, d': Data)
    requires Proper(t) && Placed(t, p, LowerExpr(e, c).code) && InScope(e, t.base) && Matches(t.base, s, d)
        && c.stack >= t.base
    ensures Ends(t, p, p + |LowerExpr(e, c).code|, brk, cont, d, Evaluate(t.env, e, s), fuel, n, d')
  {
    hide LowerExpr, Proper, Placed, InScope, Eval, Goes, Traps, Matches;
    n, d' := ExprRuns(t, p, e, c, d, s);
  }

  lemma DeclRuns(t: Site, p: nat, k: int, e: Expr, c: Counters, brk: Option<Label>, cont: Option<Label>, d: Data,
                 s: Store, fuel: nat) returns (n: nat, d': Data)
    requires var a := LowerExpr(e, c); Proper(t) && Placed(t, p, a.code + [StoreStack(k, a.o)])
    requires InScope(e, t.base) && Matches(t.base, s, d) && c.stack >= t.base
    ensures var a := Eval(t.env, e, s);
            Ends(t, p, p + |LowerExpr(e, c).code| + 1, brk, cont, d, if a.None? then Fault
                        else Normal(Put(Local(k), a.value.w, a.value.s)), fuel, n, d')
  {
    hide LowerExpr, Proper, Placed, InScope, Eval, Goes, Traps, Matches, Source.Put;
    var a := LowerExpr(e, c);
    PlacedSplit(t, p, a.code, [StoreStack(k, a.o)]);
    PlacedOne(t, p + |a.code|, StoreStack(k, a.o));
    n, d' := ExprRuns(t, p, e, c, d, s);
    var x := Eval(t.env, e, s);
    if x.Some? {
      var q := p + |a.code|;
      Stores(t, q, d', x.value.s, Local(k), a.o, x.value.w);
      var d2 := PutData(Local(k), x.value.w, d');
      GoesThen(t, p, d, n, q, d', 1, q + 1, d2);
      n, d' := n + 1, d2;
    }
  }

  lemma RetRuns(t: Site, p: nat, o: Opnd, w: Word, d: Data)
    requires p < |t.code| && t.code[p] == Ret(o) && Val(d.regs, o) == Some(w)
    ensures Steps(t.env, t.code, Run(p, d), 1) == Done(w, d.trace)
  {
    OneStep(t, p, d);
  }

  lemma ReturnRuns(t: Site, p: nat, e: Expr, c: Counters, brk: Option<Label>, cont: Option<Label>, d: Data, s: Store,
                   fuel: nat) returns (n: nat, d': Data)
    requires var a := LowerExpr(e, c); Proper(t) && Placed(t, p, a.code + [Ret(a.o)])
    requires InScope(e, t.base) && Matches(t.base, s, d) && c.stack >= t.base
    ensures var a := Eval(t.env, e, s);
            Ends(t, p, p + |LowerExpr(e, c).code| + 1, brk, cont, d, if a.None? then Fault
                        else Returned(a.value.w, a.value.s), fuel, n, d')
  {
    hide LowerExpr, Proper, Placed, InScope, Eval, Goes, Traps;
    var a := LowerExpr(e, c);
    PlacedSplit(t, p, a.code, [Ret(a.o)]);
    PlacedOne(t, p + |a.code|, Ret(a.o));
    n, d' := ExprRuns(t, p, e, c, d, s);
    var x := Eval(t.env, e, s);
    if x.Some? {
      var q := p + |a.code|;
      RetRuns(t, q, a.o, x.value.w, d');
      GoesOn(t, p, d, n, q, d', 1);
      n := n + 1;
    }
  }

  /** A condition and the branch on it: where control goes next. */
  lemma ConditionRuns(t: Site, p: nat, e: Expr, c: Counters, d: Data, s: Store, nonzero: bool, l: Label, target: nat)
      returns (n: nat, d': Data)
    requires var a := LowerExpr(e, c);
             && Proper(t) && Placed(t, p, a.code) && p + |a.code| < |t.code|
             && t.code[p + |a.code|] == JmpIf(nonzero, a.o, l)
    requires target < |t.code| && t.code[target] == Mark(l)
    requires InScope(e, t.base) && Matches(t.base, s, d) && c.stack >= t.base
    ensures var x := Eval(t.env, e, s);
            if x.None? then Traps(t, p, d, n)
            else
              && n >= 1 && Matches(t.base, x.value.s, d')
              && Goes(t, p, d, n, if (x.value.w != 0) == nonzero then target + 1
                          else p + |LowerExpr(e, c).code| + 1, d')
  {
    hide LowerExpr, Proper, Placed, InScope, Eval, Goes, Traps, Matches;
    var a := LowerExpr(e, c);
    n, d' := ExprRuns(t, p, e, c, d, s);
    var x := Eval(t.env, e, s);
    if x.Some? {
      var q := p + |a.code|;
      Branches(t, q, d', nonzero, a.o, l, target, x.value.w);
      GoesThen(t, p, d, n, q, d', 1, if (x.value.w != 0) == nonzero then target + 1 else q + 1, d');
      n := n + 1;
    }
  }

  // ----- where the parts of statements are -----

  lemma PlacedTwo(t: Site, p: nat, x: Inst, y: Inst)
    requires Placed(t, p, [x, y])
    ensures p + 1 < |t.code| && t.code[p] == x && t.code[p + 1] == y
  {
    PlacedAt(t, p, [x, y], 0);
    PlacedAt(t, p, [x, y], 1);
  }

  lemma IfThenIs(c: Counters, a: Fragment, b: Part)
    ensures IfThen(c, a, b).code == a.code + [JmpIf(false, a.o, c.lab)] + b.code + [Mark(c.lab)]
  {
  }

  lemma WhiledIs(c: Counters, a: Fragment, b: Part)
    ensures Whiled(c, a, b).code == [Mark(c.lab)] + a.code + [JmpIf(false, a.o, c.lab + 1)] + b.code
        + [Jmp(c.lab), Mark(c.lab + 1)]
  {
  }

  lemma DoWhiledIs(c: Counters, b: Part, a: Fragment)
    ensures DoWhiled(c, b, a).code == [Mark(c.lab)] + b.code + [Mark(c.lab + 1)] + a.code
        + [JmpIf(true, a.o, c.lab), Mark(c.lab + 2)]
  {
  }

  lemma LoopedIs(l: Label, a: Part, b: Part, e: Part)
    ensures Looped(l, a, b, e).code == [Mark(l)] + a.code + b.code + [Mark(l + 1)] + e.code + [Jmp(l), Mark(l + 2)]
  {
  }

  lemma SwitchedIs(end: Label, a: Fragment, ts: Tests, b: Part)
    ensures Switched(end, a, ts, b).code
         == a.code + ts.code + [Jmp(if ts.fallback.Some? then ts.fallback.value else end)] + b.code + [Mark(end)]
  {
  }

  lemma IfThenParts(t: Site, p: nat, c: Counters, a: Fragment, b: Part)
    requires Placed(t, p, IfThen(c, a, b).code)
    ensures var q := p + |a.code|;
            var m := q + 1 + |b.code|;
            && Placed(t, p, a.code) && q < |t.code| && t.code[q] == JmpIf(false, a.o, c.lab)
            && Placed(t, q + 1, b.code) && m < |t.code| && t.code[m] == Mark(c.lab)
            && p + |IfThen(c, a, b).code| == m + 1
  {
    hide *;
    IfThenIs(c, a, b);
    var j := JmpIf(false, a.o, c.lab);
    PlacedSplit(t, p, a.code + [j] + b.code, [Mark(c.lab)]);
    PlacedSplit(t, p, a.code + [j], b.code);
    PlacedSplit(t, p, a.code, [j]);
    PlacedOne(t, p + |a.code|, j);
    PlacedOne(t, p + |a.code + [j] + b.code|, Mark(c.lab));
  }

  lemma IfElseIs(c: Counters, a: Fragment, b: Part, e: Part)
    ensures IfElse(c, a, b, e).code
         == a.code + [JmpIf(false, a.o, c.lab)] + b.code + [Jmp(c.lab + 1), Mark(c.lab)] + e.code + [Mark(c.lab + 1)]
  {
  }

  lemma IfElseParts(t: Site, p: nat, c: Counters, a: Fragment, b: Part, e: Part)
    requires Placed(t, p, IfElse(c, a, b, e).code)
    ensures var q := p + |a.code|;
            var m := q + 1 + |b.code|;
            var k := m + 2 + |e.code|;
            && Placed(t, p, a.code) && q < |t.code| && t.code[q] == JmpIf(false, a.o, c.lab)
            && Placed(t, q + 1, b.code) && m + 1 < |t.code| && t.code[m] == Jmp(c.lab + 1)
            && t.code[m + 1] == Mark(c.lab)
            && Placed(t, m + 2, e.code) && k < |t.code| && t.code[k] == Mark(c.lab + 1)
            && p + |IfElse(c, a, b, e).code| == k + 1
  {
    hide *;
    IfElseIs(c, a, b, e);
    var first := a.code + [JmpIf(false, a.o, c.lab)] + b.code + [Jmp(c.lab + 1), Mark(c.lab)];
    assert |first| == |a.code| + |b.code| + 3 && |first + e.code| == |first| + |e.code|;
    PlacedSplit(t, p, first + e.code, [Mark(c.lab + 1)]);
    PlacedSplit(t, p, first, e.code);
    IfElseFront(t, p, a.code, JmpIf(false, a.o, c.lab), b.code, Jmp(c.lab + 1), Mark(c.lab));
    PlacedOne(t, p + |first + e.code|, Mark(c.lab + 1));
  }

  lemma IfElseFront(t: Site, p: nat, a: Code, j: Inst, b: Code, x: Inst, y: Inst)
    requires Placed(t, p, a + [j] + b + [x, y])
    ensures var q := p + |a|;
            var m := q + 1 + |b|;
            && Placed(t, p, a) && q < |t.code| && t.code[q] == j && Placed(t, q + 1, b)
            && m + 1 < |t.code| && t.code[m] == x && t.code[m + 1] == y
  {
    hide *;
    PlacedSplit(t, p, a + [j] + b, [x, y]);
    PlacedSplit(t, p, a + [j], b);
    PlacedSplit(t, p, a, [j]);
    PlacedOne(t, p + |a|, j);
    PlacedTwo(t, p + |a + [j] + b|, x, y);
  }

  lemma WhileParts(t: Site, p: nat, c: Counters, a: Fragment, b: Part)
    requires Placed(t, p, Whiled(c, a, b).code)
    ensures var q := p + 1 + |a.code|;
            var m := q + 1 + |b.code|;
            && p < |t.code| && t.code[p] == Mark(c.lab) && Placed(t, p + 1, a.code)
            && q < |t.code| && t.code[q] == JmpIf(false, a.o, c.lab + 1)
            && Placed(t, q + 1, b.code) && m + 1 < |t.code| && t.code[m] == Jmp(c.lab)
            && t.code[m + 1] == Mark(c.lab + 1)
            && p + |Whiled(c, a, b).code| == m + 2
  {
    hide *;
    WhiledIs(c, a, b);
    var j := JmpIf(false, a.o, c.lab + 1);
    var first := [Mark(c.lab)];
    var x := [Jmp(c.lab), Mark(c.lab + 1)];
    PlacedSplit(t, p, first + a.code + [j] + b.code, x);
    PlacedSplit(t, p, first + a.code + [j], b.code);
    PlacedSplit(t, p, first + a.code, [j]);
    PlacedSplit(t, p, first, a.code);
    PlacedOne(t, p, first[0]);
    PlacedOne(t, p + |first + a.code|, j);
    PlacedTwo(t, p + |first + a.code + [j] + b.code|, x[0], x[1]);
  }

  lemma DoWhileParts(t: Site, p: nat, c: Counters, b: Part, a: Fragment)
    requires Placed(t, p, DoWhiled(c, b, a).code)
    ensures var q := p + 1 + |b.code|;
            var m := q + 1 + |a.code|;
            && p < |t.code| && t.code[p] == Mark(c.lab) && Placed(t, p + 1, b.code)
            && q < |t.code| && t.code[q] == Mark(c.lab + 1) && Placed(t, q + 1, a.code)
            && m + 1 < |t.code| && t.code[m] == JmpIf(true, a.o, c.lab) && t.code[m + 1] == Mark(c.lab + 2)
            && p + |DoWhiled(c, b, a).code| == m + 2
  {
    hide *;
    DoWhiledIs(c, b, a);
    var first, mid := [Mark(c.lab)], [Mark(c.lab + 1)];
    var x := [JmpIf(true, a.o, c.lab), Mark(c.lab + 2)];
    PlacedSplit(t, p, first + b.code + mid + a.code, x);
    PlacedSplit(t, p, first + b.code + mid, a.code);
    PlacedSplit(t, p, first + b.code, mid);
    PlacedSplit(t, p, first, b.code);
    PlacedOne(t, p, first[0]);
    PlacedOne(t, p + |first + b.code|, mid[0]);
    PlacedTwo(t, p + |first + b.code + mid + a.code|, x[0], x[1]);
  }

  lemma LoopParts(t: Site, p: nat, l: Label, a: Part, b: Part, e: Part)
    requires Placed(t, p, Looped(l, a, b, e).code)
    ensures var q := p + 1 + |a.code|;
            var m := q + |b.code|;
            var k := m + 1 + |e.code|;
            && p < |t.code| && t.code[p] == Mark(l) && Placed(t, p + 1, a.code) && Placed(t, q, b.code)
            && m < |t.code| && t.code[m] == Mark(l + 1) && Placed(t, m + 1, e.code)
            && k + 1 < |t.code| && t.code[k] == Jmp(l) && t.code[k + 1] == Mark(l + 2)
            && p + |Looped(l, a, b, e).code| == k + 2
  {
    hide *;
    LoopedIs(l, a, b, e);
    var first, mid := [Mark(l)], [Mark(l + 1)];
    var x := [Jmp(l), Mark(l + 2)];
    var f1 := first + a.code;
    var f2 := f1 + b.code;
    var f3 := f2 + mid;
    var f4 := f3 + e.code;
    PlacedSplit(t, p, f4, x);
    PlacedSplit(t, p, f3, e.code);
    PlacedSplit(t, p, f2, mid);
    PlacedSplit(t, p, f1, b.code);
    PlacedSplit(t, p, first, a.code);
    PlacedOne(t, p, Mark(l));
    PlacedOne(t, p + |f2|, Mark(l + 1));
    PlacedTwo(t, p + |f4|, Jmp(l), Mark(l + 2));
  }

  lemma SwitchParts(t: Site, p: nat, end: Label, a: Fragment, ts: Tests, b: Part)
    requires Placed(t, p, Switched(end, a, ts, b).code)
    ensures var q := p + |a.code|;
            var m := q + |ts.code|;
            var k := m + 1 + |b.code|;
            && Placed(t, p, a.code) && Placed(t, q, ts.code)
            && m < |t.code| && t.code[m] == Jmp(if ts.fallback.Some? then ts.fallback.value else end)
            && Placed(t, m + 1, b.code) && k < |t.code| && t.code[k] == Mark(end)
            && p + |Switched(end, a, ts, b).code| == k + 1
  {
    hide *;
    SwitchedIs(end, a, ts, b);
    var j := Jmp(if ts.fallback.Some? then ts.fallback.value else end);
    PlacedSplit(t, p, a.code + ts.code + [j] + b.code, [Mark(end)]);
    PlacedSplit(t, p, a.code + ts.code + [j], b.code);
    PlacedSplit(t, p, a.code + ts.code, [j]);
    PlacedSplit(t, p, a.code, ts.code);
    PlacedOne(t, p + |a.code + ts.code|, j);
    PlacedOne(t, p + |a.code + ts.code + [j] + b.code|, Mark(end));
  }

  // ----- statements -----

  /** The hypotheses of every statement. */
  ghost predicate Begins(t: Site, p: nat, code: Code, c: Counters, d: Data, s: Store) {
    Proper(t) && Placed(t, p, code) && Matches(t.base, s, d) && c.stack >= t.base
  }

  lemma BeginsIs(t: Site, p: nat, code: Code, c: Counters, d: Data, s: Store)
    ensures Begins(t, p, code, c, d, s) <==> Proper(t) && Placed(t, p, code) && Matches(t.base, s, d)
                                             && c.stack >= t.base
  {
  }

  lemma LabelsOnly(c: Counters, n: nat)
    ensures NextLabels(c, n).stack == c.stack && NextLabels(c, n).vreg == c.vreg
  {
  }

  /** The scope of a statement's parts. */
  lemma ScopeIs(st: Stmt, base: nat)
    requires StmtInScope(st, base)
    ensures st.If? ==> InScope(st.cond, base) && StmtInScope(st.yes, base)
                       && (st.no.Some? ==> StmtInScope(st.no.value, base))
    ensures st.While? || st.DoWhile? ==> InScope(st.cond, base) && StmtInScope(st.body1, base)
    ensures st.For? ==> (st.start.Some? ==> StmtInScope(st.start.value, base)) && OptionInScope(st.test, base)
                        && OptionInScope(st.step, base) && StmtInScope(st.body1, base)
    ensures st.Switch? ==> InScope(st.e, base) && CasesInScope(st.cases, base)
  {
  }

  lemma {:induction false} StmtRuns(t: Site, p: nat, st: Stmt, c: Counters, brk: Option<Label>, cont: Option<Label>,
                                    d: Data, s: Store, fuel: nat) returns (n: nat, d': Data)
    requires Begins(t, p, LowerStmt(st, c, brk, cont).code, c, d, s) && StmtInScope(st, t.base)
    ensures Ends(t, p, p + |LowerStmt(st, c, brk, cont).code|, brk, cont, d,
                 Source.Exec(t.env, st, s, brk.Some?, cont.Some?, fuel), fuel, n, d')
    decreases fuel, st, 1
  {
    hide Proper, Placed, InScope, Eval, Goes, Traps, Matches, LowerExpr;
    match st
    case ExprStmt(e) =>
      n, d' := EvaluateRuns(t, p, e, c, brk, cont, d, s, fuel);
    case VarDecl(k, init) =>
      if init.None? {
        EndsNow(t, p, brk, cont, d, s, fuel);
        n, d' := 0, d;
      } else {
        n, d' := DeclRuns(t, p, k, init.value, c, brk, cont, d, s, fuel);
      }
    case Block(body) =>
      n, d' := AllRuns(t, p, body, c, brk, cont, d, s, fuel);
    case If(_, _, _) =>
      if st.no.None? {
        n, d' := IfThenRuns(t, p, st, c, brk, cont, d, s, fuel);
      } else {
        n, d' := IfElseRuns(t, p, st, c, brk, cont, d, s, fuel);
      }
    case While(_, _) =>
      n, d' := WhileRuns(t, p, st, c, brk, cont, d, s, fuel);
    case DoWhile(_, _) =>
      n, d' := DoWhileRuns(t, p, st, c, brk, cont, d, s, fuel);
    case For(_, _, _, _) =>
      n, d' := ForRuns(t, p, st, c, brk, cont, d, s, fuel);
    case Switch(_, _) =>
      n, d' := SwitchRuns(t, p, st, c, brk, cont, d, s, fuel);
    case Break =>
      n := LeaveRuns(t, p, brk, d);
      d' := d;
      if brk.None? { EndsNow(t, p, brk, cont, d, s, fuel); }
    case Continue =>
      n := LeaveRuns(t, p, cont, d);
      d' := d;
      if cont.None? { EndsNow(t, p, brk, cont, d, s, fuel); }
    case Return(v) =>
      if v.None? {
        PlacedOne(t, p, Ret(Imm(0)));
        RetRuns(t, p, Imm(0), 0, d);
        MatchesTrace(t.base, s, d);
        n, d' := 1, d;
      } else {
        n, d' := ReturnRuns(t, p, v.value, c, brk, cont, d, s, fuel);
      }
  }

  lemma MatchesTrace(base: nat, s: Store, d: Data)
    requires Matches(base, s, d)
    ensures d.trace == s.trace
  {
  }

  lemma LeaveRuns(t: Site, p: nat, l: Option<Label>, d: Data) returns (n: nat)
    requires Placed(t, p, JumpOut(l))
    ensures l.Some? ==> Goes(t, p, d, n, Find(t.code, l.value) + 1, d)
    ensures l.None? ==> n == 0
  {
    n := 0;
    if l.Some? {
      PlacedOne(t, p, Jmp(l.value));
      OneStep(t, p, d);
      n := 1;
    }
  }

  lemma AllIs(t: Site, ss: Stmts, c: Counters, brk: Option<Label>, cont: Option<Label>, s: Store, fuel: nat)
    requires AllInScope(ss, t.base)
    ensures ss.Nil? ==> LowerAll(ss, c, brk, cont) == Part([], c)
                        && ExecAll(t.env, ss, s, brk.Some?, cont.Some?, fuel) == Normal(s)
    ensures ss.Cons? ==>
              var a := LowerStmt(ss.head, c, brk, cont);
              var b := LowerAll(ss.tail, a.c, brk, cont);
              var r := Source.Exec(t.env, ss.head, s, brk.Some?, cont.Some?, fuel);
              && LowerAll(ss, c, brk, cont) == Part(a.code + b.code, b.c)
              && ExecAll(t.env, ss, s, brk.Some?, cont.Some?, fuel)
                  == (if r.Normal? then ExecAll(t.env, ss.tail, r.s, brk.Some?, cont.Some?, fuel) else r)
              && StmtInScope(ss.head, t.base) && AllInScope(ss.tail, t.base)
  {
  }

  lemma AllRuns(t: Site, p: nat, ss: Stmts, c: Counters, brk: Option<Label>, cont: Option<Label>, d: Data, s: Store,
                fuel: nat) returns (n: nat, d': Data)
    requires Begins(t, p, LowerAll(ss, c, brk, cont).code, c, d, s) && AllInScope(ss, t.base)
    ensures Ends(t, p, p + |LowerAll(ss, c, brk, cont).code|, brk, cont, d,
                 ExecAll(t.env, ss, s, brk.Some?, cont.Some?, fuel), fuel, n, d')
    decreases fuel, ss, 0
  {
    hide *;
    BeginsIs(t, p, LowerAll(ss, c, brk, cont).code, c, d, s);
    AllIs(t, ss, c, brk, cont, s, fuel);
    if ss.Nil? {
      EndsNow(t, p, brk, cont, d, s, fuel);
      n, d' := 0, d;
    } else {
      var a := LowerStmt(ss.head, c, brk, cont);
      var b := LowerAll(ss.tail, a.c, brk, cont);
      PlacedSplit(t, p, a.code, b.code);
      var r := Source.Exec(t.env, ss.head, s, brk.Some?, cont.Some?, fuel);
      BeginsIs(t, p, a.code, c, d, s);
      n, d' := StmtRuns(t, p, ss.head, c, brk, cont, d, s, fuel);
      if r.Normal? {
        EndsMatch(t, p, p + |a.code|, brk, cont, d, r, fuel, n, d');
        BeginsIs(t, p + |a.code|, b.code, a.c, d', r.s);
        var m, d2 := AllRuns(t, p + |a.code|, ss.tail, a.c, brk, cont, d', r.s, fuel);
        EndsThen(t, p, p + |a.code|, p + |a.code| + |b.code|, brk, cont, d, r, fuel, n, d',
                 ExecAll(t.env, ss.tail, r.s, brk.Some?, cont.Some?, fuel), m, d2);
        n, d' := n + m, d2;
      } else {
        EndsAbruptly(t, p, p + |a.code|, p + |a.code| + |b.code|, brk, cont, d, r, fuel, n, d');
      }
    }
  }

  lemma EndsMatch(t: Site, p: nat, stop: nat, brk: Option<Label>, cont: Option<Label>, d: Data, r: Ending, fuel: nat,
                  n: nat, d': Data)
    requires Ends(t, p, stop, brk, cont, d, r, fuel, n, d') && r.Normal?
    ensures Matches(t.base, r.s, d') && Goes(t, p, d, n, stop, d')
  {
  }

  /** A branch of an `if`: after the condition, run it and get to the end in `m` more steps. */
  lemma BranchEnds(t: Site, p: nat, d: Data, n: nat, q: nat, d1: Data, mid: nat, stop: nat, brk: Option<Label>,
                   cont: Option<Label>, r: Ending, fuel: nat, k: nat, d2: Data, m: nat)
    requires Goes(t, p, d, n, q, d1) && Ends(t, q, mid, brk, cont, d1, r, fuel, k, d2)
    requires r.Normal? ==> Goes(t, mid, d2, m, stop, d2)
    ensures Ends(t, p, stop, brk, cont, d, r, fuel, if r.Normal? then n + k + m else n + k, d2)
  {
    EndsAfter(t, p, d, n, q, d1, mid, brk, cont, r, fuel, k, d2);
    if r.Normal? {
      EndsOn(t, p, mid, stop, brk, cont, d, r, fuel, n + k, d2, m);
    } else {
      EndsAbruptly(t, p, mid, stop, brk, cont, d, r, fuel, n + k, d2);
    }
  }

  lemma IfIs(env: Env, st: Stmt, s: Store, b: bool, k: bool, fuel: nat)
    requires st.If?
    ensures var x := Eval(env, st.cond, s);
            Source.Exec(env, st, s, b, k, fuel) ==
              if x.None? then Fault
              else if x.value.w != 0 then Source.Exec(env, st.yes, x.value.s, b, k, fuel)
              else if st.no.Some? then Source.Exec(env, st.no.value, x.value.s, b, k, fuel)
              else Normal(x.value.s)
  {
  }

  lemma IfThenRuns(t: Site, p: nat, st: Stmt, c: Counters, brk: Option<Label>, cont: Option<Label>, d: Data, s: Store,
                   fuel: nat) returns (n: nat, d': Data)
    requires st.If? && st.no.None? && Begins(t, p, LowerStmt(st, c, brk, cont).code, c, d, s) && StmtInScope(st, t.base)
    ensures Ends(t, p, p + |LowerStmt(st, c, brk, cont).code|, brk, cont, d,
                 Source.Exec(t.env, st, s, brk.Some?, cont.Some?, fuel), fuel, n, d')
    decreases fuel, st, 0, 1
  {
    hide *;
    BeginsIs(t, p, LowerStmt(st, c, brk, cont).code, c, d, s);
    ScopeIs(st, t.base);
    LowerIf(st, c, brk, cont);
    IfIs(t.env, st, s, brk.Some?, cont.Some?, fuel);
    LabelsOnly(c, 1);
    var first := NextLabels(c, 1);
    var a := LowerExpr(st.cond, first);
    var b := LowerStmt(st.yes, a.c, brk, cont);
    var x := Eval(t.env, st.cond, s);
    IfThenParts(t, p, c, a, b);
    var q := p + |a.code|;
    var m := q + 1 + |b.code|;
    n, d' := ConditionRuns(t, p, st.cond, first, d, s, false, c.lab, m);
    if x.None? {
      FaultEnds(t, p, d, n, m + 1, d', brk, cont, fuel);
    } else if x.value.w == 0 {
      NormalEnds(t, p, d, n, m + 1, d', x.value.s, brk, cont, fuel);
    } else {
      var r := Source.Exec(t.env, st.yes, x.value.s, brk.Some?, cont.Some?, fuel);
      BeginsIs(t, q + 1, b.code, a.c, d', x.value.s);
      var k, d2 := StmtRuns(t, q + 1, st.yes, a.c, brk, cont, d', x.value.s, fuel);
      MarkPasses(t, m, c.lab, d2);
      BranchEnds(t, p, d, n, q + 1, d', m, m + 1, brk, cont, r, fuel, k, d2, 1);
      n, d' := if r.Normal? then n + k + 1 else n + k, d2;
    }
  }

  lemma IfElseRuns(t: Site, p: nat, st: Stmt, c: Counters, brk: Option<Label>, cont: Option<Label>, d: Data, s: Store,
                   fuel: nat) returns (n: nat, d': Data)
    requires st.If? && st.no.Some? && Begins(t, p, LowerStmt(st, c, brk, cont).code, c, d, s) && StmtInScope(st, t.base)
    ensures Ends(t, p, p + |LowerStmt(st, c, brk, cont).code|, brk, cont, d,
                 Source.Exec(t.env, st, s, brk.Some?, cont.Some?, fuel), fuel, n, d')
    decreases fuel, st, 0, 1
  {
    hide *;
    BeginsIs(t, p, LowerStmt(st, c, brk, cont).code, c, d, s);
    ScopeIs(st, t.base);
    LowerIf(st, c, brk, cont);
    IfIs(t.env, st, s, brk.Some?, cont.Some?, fuel);
    LabelsOnly(c, 2);
    var first := NextLabels(c, 2);
    var a := LowerExpr(st.cond, first);
    var b := LowerStmt(st.yes, a.c, brk, cont);
    var e := LowerStmt(st.no.value, b.c, brk, cont);
    var x := Eval(t.env, st.cond, s);
    IfElseParts(t, p, c, a, b, e);
    var q := p + |a.code|;
    var m := q + 1 + |b.code|;
    var k := m + 2 + |e.code|;
    n, d' := ConditionRuns(t, p, st.cond, first, d, s, false, c.lab, m + 1);
    if x.None? {
      FaultEnds(t, p, d, n, k + 1, d', brk, cont, fuel);
    } else if x.value.w != 0 {
      var r := Source.Exec(t.env, st.yes, x.value.s, brk.Some?, cont.Some?, fuel);
      BeginsIs(t, q + 1, b.code, a.c, d', x.value.s);
      var i, d2 := StmtRuns(t, q + 1, st.yes, a.c, brk, cont, d', x.value.s, fuel);
      Jumps(t, m, d2, c.lab + 1, k);
      BranchEnds(t, p, d, n, q + 1, d', m, k + 1, brk, cont, r, fuel, i, d2, 1);
      n, d' := if r.Normal? then n + i + 1 else n + i, d2;
    } else {
      var r := Source.Exec(t.env, st.no.value, x.value.s, brk.Some?, cont.Some?, fuel);
      BeginsIs(t, m + 2, e.code, b.c, d', x.value.s);
      var i, d2 := StmtRuns(t, m + 2, st.no.value, b.c, brk, cont, d', x.value.s, fuel);
      MarkPasses(t, k, c.lab + 1, d2);
      BranchEnds(t, p, d, n, m + 2, d', k, k + 1, brk, cont, r, fuel, i, d2, 1);
      n, d' := if r.Normal? then n + i + 1 else n + i, d2;
    }
  }

  lemma NormalEnds(t: Site, p: nat, d: Data, n: nat, stop: nat, d': Data, s: Store, brk: Option<Label>,
                   cont: Option<Label>, fuel: nat)
    requires Goes(t, p, d, n, stop, d') && Matches(t.base, s, d')
    ensures Ends(t, p, stop, brk, cont, d, Normal(s), fuel, n, d')
  {
  }

  lemma FaultEnds(t: Site, p: nat, d: Data, n: nat, stop: nat, d': Data, brk: Option<Label>, cont: Option<Label>,
                  fuel: nat)
    requires Traps(t, p, d, n)
    ensures Ends(t, p, stop, brk, cont, d, Fault, fuel, n, d')
  {
  }

  /** The limit is used up where another iteration would begin. */
  lemma TimeoutEnds(t: Site, p: nat, d: Data, n: nat, q: nat, d': Data, stop: nat, s: Store, brk: Option<Label>,
                    cont: Option<Label>)
    requires Goes(t, p, d, n, q, d') && Matches(t.base, s, d')
    ensures Ends(t, p, stop, brk, cont, d, Timeout(s), 0, n, d')
  {
  }

  /** Another iteration from `q` on, with one unit of the limit less. */
  lemma IterationEnds(t: Site, p: nat, d: Data, n: nat, q: nat, d1: Data, stop: nat, brk: Option<Label>,
                      cont: Option<Label>, r: Ending, fuel: nat, k: nat, d2: Data)
    requires Goes(t, p, d, n, q, d1) && n >= 1 && fuel >= 1 && Ends(t, q, stop, brk, cont, d1, r, fuel - 1, k, d2)
    ensures Ends(t, p, stop, brk, cont, d, r, fuel, n + k, d2)
  {
    GoesOn(t, p, d, n, q, d1, k);
  }

  /** The body of a loop from `q`: out of the loop at `stop`, or at `next` with the store behind the body,
      where a normal end of the body at `mid` gets in `m` steps. */
  lemma BodyTurns(t: Site, p: nat, d: Data, n: nat, q: nat, d1: Data, mid: nat, next: nat, stop: nat, end: Label,
                  step: Label, brk: Option<Label>, cont: Option<Label>,
                  r: Ending, fuel: nat, k: nat, d2: Data, m: nat) returns (n': nat)
    requires Goes(t, p, d, n, q, d1) && n >= 1 && Ends(t, q, mid, Some(end), Some(step), d1, r, fuel, k, d2)
    requires Find(t.code, end) + 1 == stop && Find(t.code, step) + 1 == next && Goes(t, mid, d2, m, next, d2)
    ensures !AfterBody(r).Normal? ==> Ends(t, p, stop, brk, cont, d, AfterLoop(AfterBody(r)), fuel, n', d2)
    ensures AfterBody(r).Normal? ==> n' >= 1 && Matches(t.base, AfterBody(r).s, d2) && Goes(t, p, d, n', next, d2)
  {
    BodyEnds(t, q, mid, next, stop, end, step, brk, cont, d1, r, fuel, k, d2);
    hide Goes, Matches, Find, Traps;
    if AfterBody(r).Normal? {
      GoesThen(t, p, d, n, q, d1, k, if r.Normal? then mid else next, d2);
      n' := n + k;
      if r.Normal? {
        GoesThen(t, p, d, n + k, mid, d2, m, next, d2);
        n' := n + k + m;
      }
    } else {
      EndsAfter(t, p, d, n, q, d1, stop, brk, cont, AfterLoop(AfterBody(r)), fuel, k, d2);
      n' := n + k;
    }
  }

  lemma WhileIs(env: Env, st: Stmt, c: Counters, brk: Option<Label>, cont: Option<Label>, s: Store, b: bool, k: bool,
                fuel: nat)
    requires st.While?
    ensures var a := LowerExpr(st.cond, NextLabels(c, 2));
            LowerStmt(st, c, brk, cont) == Whiled(c, a, LowerStmt(st.body1, a.c, Some(c.lab + 1), Some(c.lab)))
    ensures var x := Eval(env, st.cond, s);
            && (x.None? ==> Source.Exec(env, st, s, b, k, fuel) == Fault)
            && (x.Some? && x.value.w == 0 ==> Source.Exec(env, st, s, b, k, fuel) == Normal(x.value.s))
            && (x.Some? && x.value.w != 0 ==>
                  var r := AfterBody(Source.Exec(env, st.body1, x.value.s, true, true, fuel));
                  Source.Exec(env, st, s, b, k, fuel) ==
                    if !r.Normal? then AfterLoop(r)
                    else if fuel == 0 then Timeout(r.s)
                    else Source.Exec(env, st, r.s, b, k, fuel - 1))
  {
  }

  /** A `while` loop from behind its start label. */
  lemma WhileLoop(t: Site, p: nat, st: Stmt, c: Counters, brk: Option<Label>, cont: Option<Label>, d: Data, s: Store,
                  fuel: nat) returns (n: nat, d': Data)
    requires st.While? && Begins(t, p, LowerStmt(st, c, brk, cont).code, c, d, s) && StmtInScope(st, t.base)
    ensures Ends(t, p + 1, p + |LowerStmt(st, c, brk, cont).code|, brk, cont, d,
                 Source.Exec(t.env, st, s, brk.Some?, cont.Some?, fuel), fuel, n, d')
    decreases fuel, st, 0, 0
  {
    hide *;
    BeginsIs(t, p, LowerStmt(st, c, brk, cont).code, c, d, s);
    ScopeIs(st, t.base);
    LabelsOnly(c, 2);
    WhileIs(t.env, st, c, brk, cont, s, brk.Some?, cont.Some?, fuel);
    var a := LowerExpr(st.cond, NextLabels(c, 2));
    var b := LowerStmt(st.body1, a.c, Some(c.lab + 1), Some(c.lab));
    WhileParts(t, p, c, a, b);
    var q := p + 1 + |a.code|;
    var m := q + 1 + |b.code|;
    var x := Eval(t.env, st.cond, s);
    MarkAt(t, p, c.lab);
    MarkAt(t, m + 1, c.lab + 1);
    n, d' := ConditionRuns(t, p + 1, st.cond, NextLabels(c, 2), d, s, false, c.lab + 1, m + 1);
    if x.None? {
      FaultEnds(t, p + 1, d, n, m + 2, d', brk, cont, fuel);
    } else if x.value.w == 0 {
      NormalEnds(t, p + 1, d, n, m + 2, d', x.value.s, brk, cont, fuel);
    } else {
      var r := Source.Exec(t.env, st.body1, x.value.s, true, true, fuel);
      BeginsIs(t, q + 1, b.code, a.c, d', x.value.s);
      var k, d2 := StmtRuns(t, q + 1, st.body1, a.c, Some(c.lab + 1), Some(c.lab), d', x.value.s, fuel);
      Jumps(t, m, d2, c.lab, p);
      n := BodyTurns(t, p + 1, d, n, q + 1, d', m, p + 1, m + 2, c.lab + 1, c.lab, brk, cont, r, fuel, k, d2, 1);
      d' := d2;
      if AfterBody(r).Normal? {
        if fuel == 0 {
          TimeoutEnds(t, p + 1, d, n, p + 1, d2, m + 2, AfterBody(r).s, brk, cont);
        } else {
          BeginsIs(t, p, LowerStmt(st, c, brk, cont).code, c, d2, AfterBody(r).s);
          var i, d3 := WhileLoop(t, p, st, c, brk, cont, d2, AfterBody(r).s, fuel - 1);
          IterationEnds(t, p + 1, d, n, p + 1, d2, m + 2, brk, cont,
                        Source.Exec(t.env, st, AfterBody(r).s, brk.Some?, cont.Some?, fuel - 1), fuel, i, d3);
          n, d' := n + i, d3;
        }
      }
    }
  }

  lemma WhileRuns(t: Site, p: nat, st: Stmt, c: Counters, brk: Option<Label>, cont: Option<Label>, d: Data, s: Store,
                  fuel: nat) returns (n: nat, d': Data)
    requires st.While? && Begins(t, p, LowerStmt(st, c, brk, cont).code, c, d, s) && StmtInScope(st, t.base)
    ensures Ends(t, p, p + |LowerStmt(st, c, brk, cont).code|, brk, cont, d,
                 Source.Exec(t.env, st, s, brk.Some?, cont.Some?, fuel), fuel, n, d')
    decreases fuel, st, 0, 1
  {
    hide *;
    BeginsIs(t, p, LowerStmt(st, c, brk, cont).code, c, d, s);
    ScopeIs(st, t.base);
    WhileIs(t.env, st, c, brk, cont, s, brk.Some?, cont.Some?, fuel);
    var a := LowerExpr(st.cond, NextLabels(c, 2));
    WhileParts(t, p, c, a, LowerStmt(st.body1, a.c, Some(c.lab + 1), Some(c.lab)));
    MarkPasses(t, p, c.lab, d);
    n, d' := WhileLoop(t, p, st, c, brk, cont, d, s, fuel);
    EndsAfter(t, p, d, 1, p + 1, d, p + |LowerStmt(st, c, brk, cont).code|, brk, cont,
              Source.Exec(t.env, st, s, brk.Some?, cont.Some?, fuel), fuel, n, d');
    n := n + 1;
  }

  lemma DoWhileIs(env: Env, st: Stmt, c: Counters, brk: Option<Label>, cont: Option<Label>, s: Store, b: bool, k: bool,
                  fuel: nat)
    requires st.DoWhile?
    ensures var body := LowerStmt(st.body1, NextLabels(c, 3), Some(c.lab + 2), Some(c.lab + 1));
            LowerStmt(st, c, brk, cont) == DoWhiled(c, body, LowerExpr(st.cond, body.c))
    ensures var r := AfterBody(Source.Exec(env, st.body1, s, true, true, fuel));
            && (!r.Normal? ==> Source.Exec(env, st, s, b, k, fuel) == AfterLoop(r))
            && (r.Normal? ==>
                  var x := Eval(env, st.cond, r.s);
                  && (x.None? ==> Source.Exec(env, st, s, b, k, fuel) == Fault)
                  && (x.Some? && x.value.w == 0 ==> Source.Exec(env, st, s, b, k, fuel) == Normal(x.value.s))
                  && (x.Some? && x.value.w != 0 ==>
                        Source.Exec(env, st, s, b, k, fuel) == if fuel
                          == 0 then Timeout(x.value.s) else Source.Exec(env, st, x.value.s, b, k, fuel - 1)))
  {
  }

  /** The end of the loop body's turn in a `do` loop: the condition at `q`. */
  lemma CheckRuns(t: Site, p: nat, d: Data, n: nat, q: nat, d1: Data, e: Expr, c: Counters, s: Store, l: Label,
                  start: nat) returns (n': nat, d': Data)
    requires Goes(t, p, d, n, q, d1)
    requires var a := LowerExpr(e, c);
             && Proper(t) && Placed(t, q, a.code) && q + |a.code| < |t.code|
             && t.code[q + |a.code|] == JmpIf(true, a.o, l)
    requires start < |t.code| && t.code[start] == Mark(l) && q + |LowerExpr(e, c).code| + 1 < |t.code|
        && t.code[q + |LowerExpr(e, c).code| + 1].Mark?
    requires InScope(e, t.base) && Matches(t.base, s, d1) && c.stack >= t.base
    ensures var x := Eval(t.env, e, s);
            if x.None? then Traps(t, p, d, n')
            else
              && n' >= 1 && Matches(t.base, x.value.s, d')
              && Goes(t, p, d, n', if x.value.w != 0 then start + 1 else q + |LowerExpr(e, c).code| + 2, d')
  {
    hide Proper, Placed, Goes, Traps, Matches, LowerExpr, Eval, InScope;
    var k, d2 := ConditionRuns(t, q, e, c, d1, s, true, l, start);
    n', d' := n + k, d2;
    var x := Eval(t.env, e, s);
    if x.None? {
      TrapsThen(t, p, d, n, q, d1, k);
    } else {
      var end := q + |LowerExpr(e, c).code| + 1;
      GoesThen(t, p, d, n, q, d1, k, if x.value.w != 0 then start + 1 else end, d2);
      if x.value.w == 0 {
        Passes(t, end, d2);
        GoesThen(t, p, d, n', end, d2, 1, end + 1, d2);
        n' := n' + 1;
      }
    }
  }

  /** A `do` loop from behind its start label. */
  lemma DoWhileLoop(t: Site, p: nat, st: Stmt, c: Counters, brk: Option<Label>, cont: Option<Label>, d: Data, s: Store,
                    fuel: nat) returns (n: nat, d': Data)
    requires st.DoWhile? && Begins(t, p, LowerStmt(st, c, brk, cont).code, c, d, s) && StmtInScope(st, t.base)
    ensures Ends(t, p + 1, p + |LowerStmt(st, c, brk, cont).code|, brk, cont, d,
                 Source.Exec(t.env, st, s, brk.Some?, cont.Some?, fuel), fuel, n, d')
    decreases fuel, st, 0, 0
  {
    hide *;
    BeginsIs(t, p, LowerStmt(st, c, brk, cont).code, c, d, s);
    ScopeIs(st, t.base);
    LabelsOnly(c, 3);
    DoWhileIs(t.env, st, c, brk, cont, s, brk.Some?, cont.Some?, fuel);
    var b := LowerStmt(st.body1, NextLabels(c, 3), Some(c.lab + 2), Some(c.lab + 1));
    var a := LowerExpr(st.cond, b.c);
    DoWhileParts(t, p, c, b, a);
    var q := p + 1 + |b.code|;
    var m := q + 1 + |a.code|;
    MarkAt(t, p, c.lab);
    MarkAt(t, q, c.lab + 1);
    MarkAt(t, m + 1, c.lab + 2);
    var r0 := Source.Exec(t.env, st.body1, s, true, true, fuel);
    var r := AfterBody(r0);
    NormalBody(r0);
    BeginsIs(t, p + 1, b.code, NextLabels(c, 3), d, s);
    var k, d2 := StmtRuns(t, p + 1, st.body1, NextLabels(c, 3), Some(c.lab + 2), Some(c.lab + 1), d, s, fuel);
    Passes(t, q, d2);
    DoBodyTurns(t, p + 1, q, q + 1, m + 2, c.lab + 2, c.lab + 1, brk, cont, d, r0, fuel, k, d2);
    n, d' := if r0.Normal? then k + 1 else k, d2;
    if r.Normal? {
      n, d' := CheckRuns(t, p + 1, d, n, q + 1, d2, st.cond, b.c, r.s, c.lab, p);
      var x := Eval(t.env, st.cond, r.s);
      if x.None? {
        FaultEnds(t, p + 1, d, n, m + 2, d', brk, cont, fuel);
      } else if x.value.w == 0 {
        NormalEnds(t, p + 1, d, n, m + 2, d', x.value.s, brk, cont, fuel);
      } else if fuel == 0 {
        TimeoutEnds(t, p + 1, d, n, p + 1, d', m + 2, x.value.s, brk, cont);
      } else {
        BeginsIs(t, p, LowerStmt(st, c, brk, cont).code, c, d', x.value.s);
        var i, d3 := DoWhileLoop(t, p, st, c, brk, cont, d', x.value.s, fuel - 1);
        IterationEnds(t, p + 1, d, n, p + 1, d', m + 2, brk, cont,
                      Source.Exec(t.env, st, x.value.s, brk.Some?, cont.Some?, fuel - 1), fuel, i, d3);
        n, d' := n + i, d3;
      }
    }
  }

  lemma NormalBody(r: Ending)
    ensures r.Normal? ==> AfterBody(r) == r
  {
  }

  lemma DoBodyTurns(t: Site, p: nat, mid: nat, next: nat, stop: nat, end: Label, step: Label, brk: Option<Label>,
                    cont: Option<Label>,
                    d: Data, r: Ending, fuel: nat, k: nat, d2: Data)
    requires Ends(t, p, mid, Some(end), Some(step), d, r, fuel, k, d2)
    requires Find(t.code, end) + 1 == stop && Find(t.code, step) + 1 == next && Goes(t, mid, d2, 1, next, d2)
    ensures !AfterBody(r).Normal? ==> Ends(t, p, stop, brk, cont, d, AfterLoop(AfterBody(r)), fuel, k, d2)
    ensures AfterBody(r).Normal? ==> Matches(t.base, AfterBody(r).s, d2)
                                     && Goes(t, p, d, if r.Normal? then k + 1 else k, next, d2)
  {
    BodyEnds(t, p, mid, next, stop, end, step, brk, cont, d, r, fuel, k, d2);
    hide Goes, Matches, Find, Traps;
    if r.Normal? { GoesThen(t, p, d, k, mid, d2, 1, next, d2); }
  }

  lemma DoWhileRuns(t: Site, p: nat, st: Stmt, c: Counters, brk: Option<Label>, cont: Option<Label>, d: Data, s: Store,
                    fuel: nat) returns (n: nat, d': Data)
    requires st.DoWhile? && Begins(t, p, LowerStmt(st, c, brk, cont).code, c, d, s) && StmtInScope(st, t.base)
    ensures Ends(t, p, p + |LowerStmt(st, c, brk, cont).code|, brk, cont, d,
                 Source.Exec(t.env, st, s, brk.Some?, cont.Some?, fuel), fuel, n, d')
    decreases fuel, st, 0, 1
  {
    hide *;
    BeginsIs(t, p, LowerStmt(st, c, brk, cont).code, c, d, s);
    ScopeIs(st, t.base);
    DoWhileIs(t.env, st, c, brk, cont, s, brk.Some?, cont.Some?, fuel);
    var b := LowerStmt(st.body1, NextLabels(c, 3), Some(c.lab + 2), Some(c.lab + 1));
    DoWhileParts(t, p, c, b, LowerExpr(st.cond, b.c));
    MarkPasses(t, p, c.lab, d);
    n, d' := DoWhileLoop(t, p, st, c, brk, cont, d, s, fuel);
    EndsAfter(t, p, d, 1, p + 1, d, p + |LowerStmt(st, c, brk, cont).code|, brk, cont,
              Source.Exec(t.env, st, s, brk.Some?, cont.Some?, fuel), fuel, n, d');
    n := n + 1;
  }

  // ----- `for` -----

  function TestValue(env: Env, test: Option<Expr>, s: Store): Option<Res> {
    if test.Some? then Eval(env, test.value, s) else Some(Res(1, s))
  }

  lemma TestIs(t: Site, test: Option<Expr>, c: Counters, s: Store, end: Label)
    requires OptionInScope(test, t.base)
    ensures test.None? ==> LowerTest(test, end, c) == Part([], c) && TestValue(t.env, test, s) == Some(Res(1, s))
    ensures test.Some? ==>
              var a := LowerExpr(test.value, c);
              && LowerTest(test, end, c) == Part(a.code + [JmpIf(false, a.o, end)], a.c)
              && TestValue(t.env, test, s) == Eval(t.env, test.value, s) && InScope(test.value, t.base)
  {
  }

  /** The test of a `for` loop: to `stop` if it fails, else behind it. */
  lemma TestRuns(t: Site, p: nat, test: Option<Expr>, c: Counters, d: Data, s: Store, end: Label, target: nat)
      returns (n: nat, d': Data)
    requires Proper(t) && Placed(t, p, LowerTest(test, end, c).code) && target < |t.code| && t.code[target] == Mark(end)
    requires OptionInScope(test, t.base) && Matches(t.base, s, d) && c.stack >= t.base
    ensures var x := TestValue(t.env, test, s);
            if x.None? then Traps(t, p, d, n)
            else
              && Matches(t.base, x.value.s, d')
              && Goes(t, p, d, n, if x.value.w == 0 then target + 1 else p + |LowerTest(test, end, c).code|, d')
  {
    hide *;
    TestIs(t, test, c, s, end);
    if test.None? {
      NoSteps(t, p, d);
      n, d' := 0, d;
    } else {
      var a := LowerExpr(test.value, c);
      PlacedSplit(t, p, a.code, [JmpIf(false, a.o, end)]);
      PlacedOne(t, p + |a.code|, JmpIf(false, a.o, end));
      n, d' := ConditionRuns(t, p, test.value, c, d, s, false, end, target);
    }
  }

  function StepEnding(env: Env, step: Option<Expr>, s: Store): Ending {
    if step.Some? then Evaluate(env, step.value, s) else Normal(s)
  }

  /** The step of a `for` loop at `q` and the jump back to its start. */
  lemma StepRuns(t: Site, p: nat, d: Data, n: nat, q: nat, d1: Data, step: Option<Expr>, c: Counters, s: Store,
                 l: Label, start: nat) returns (n': nat, d': Data)
    requires Goes(t, p, d, n, q, d1) && Proper(t) && Placed(t, q, LowerStep(step, c).code)
    requires var k := q + |LowerStep(step, c).code|; k < |t.code| && t.code[k] == Jmp(l)
    requires start < |t.code| && t.code[start] == Mark(l)
    requires OptionInScope(step, t.base) && Matches(t.base, s, d1) && c.stack >= t.base
    ensures var r := StepEnding(t.env, step, s);
            && (r.Fault? ==> Traps(t, p, d, n'))
            && (r.Normal? ==> n' >= 1 && Matches(t.base, r.s, d') && Goes(t, p, d, n', start + 1, d'))
            && (r.Fault? || r.Normal?)
  {
    var k := q + |LowerStep(step, c).code|;
    hide Proper, Placed, Goes, Traps, Matches, LowerExpr, Eval, InScope;
    n', d' := n, d1;
    var x := if step.Some? then Eval(t.env, step.value, s) else Some(Res(0, s));
    if step.Some? {
      var i, d2 := ExprRuns(t, q, step.value, c, d1, s);
      n', d' := n + i, d2;
      if x.None? { TrapsThen(t, p, d, n, q, d1, i); } else { GoesThen(t, p, d, n, q, d1, i, k, d2); }
    }
    if x.Some? {
      Jumps(t, k, d', l, start);
      GoesThen(t, p, d, n', k, d', 1, start + 1, d');
      n' := n' + 1;
    }
  }

  lemma LoopIs(env: Env, test: Option<Expr>, step: Option<Expr>, body: Stmt, s: Store, fuel: nat)
    ensures var x := TestValue(env, test, s);
            && (x.None? ==> Loop(env, test, step, body, s, fuel) == Fault)
            && (x.Some? && x.value.w == 0 ==> Loop(env, test, step, body, s, fuel) == Normal(x.value.s))
            && (x.Some? && x.value.w != 0 ==>
                  var r := AfterBody(Source.Exec(env, body, x.value.s, true, true, fuel));
                  && (!r.Normal? ==> Loop(env, test, step, body, s, fuel) == AfterLoop(r))
                  && (r.Normal? ==>
                        var e := StepEnding(env, step, r.s);
                        && (e.Fault? ==> Loop(env, test, step, body, s, fuel) == Fault)
                        && (e.Normal? ==> Loop(env, test, step, body, s, fuel) == if fuel
                                          == 0 then Timeout(e.s) else Loop(env, test, step, body, e.s, fuel - 1))))
  {
  }

  ghost predicate LoopBegins(t: Site, p: nat, test: Option<Expr>, step: Option<Expr>, body: Stmt, l: Label, c: Counters,
                             d: Data, s: Store) {
    && Begins(t, p, LowerLoop(test, step, body, l, c).code, c, d, s)
    && OptionInScope(test, t.base) && OptionInScope(step, t.base) && StmtInScope(body, t.base)
  }

  lemma LoopBeginsIs(t: Site, p: nat, test: Option<Expr>, step: Option<Expr>, body: Stmt, l: Label, c: Counters,
                     d: Data, s: Store)
    ensures LoopBegins(t, p, test, step, body, l, c, d, s) <==>
              && Proper(t) && Placed(t, p, LowerLoop(test, step, body, l, c).code) && Matches(t.base, s, d)
              && c.stack >= t.base
              && OptionInScope(test, t.base) && OptionInScope(step, t.base) && StmtInScope(body, t.base)
  {
  }

  lemma LoopCode(test: Option<Expr>, step: Option<Expr>, body: Stmt, l: Label, c: Counters)
    ensures var a := LowerTest(test, l + 2, c);
            var b := LowerStmt(body, a.c, Some(l + 2), Some(l + 1));
            LowerLoop(test, step, body, l, c) == Looped(l, a, b, LowerStep(step, b.c))
  {
  }

  /** The loop of a `for` statement from behind its start label. */
  lemma ForLoop(t: Site, p: nat, test: Option<Expr>, step: Option<Expr>, body: Stmt, l: Label, c: Counters,
                brk: Option<Label>, cont: Option<Label>, d: Data, s: Store, fuel: nat)
      returns (n: nat, d': Data)
    requires LoopBegins(t, p, test, step, body, l, c, d, s)
    ensures Ends(t, p + 1, p + |LowerLoop(test, step, body, l, c).code|, brk, cont, d,
                 Loop(t.env, test, step, body, s, fuel), fuel, n, d')
    decreases fuel, body, 2
  {
    hide *;
    LoopBeginsIs(t, p, test, step, body, l, c, d, s);
    LoopCode(test, step, body, l, c);
    LoopIs(t.env, test, step, body, s, fuel);
    var a := LowerTest(test, l + 2, c);
    var b := LowerStmt(body, a.c, Some(l + 2), Some(l + 1));
    var e := LowerStep(step, b.c);
    LoopParts(t, p, l, a, b, e);
    var q := p + 1 + |a.code|;
    var m := q + |b.code|;
    var k := m + 1 + |e.code|;
    MarkAt(t, p, l);
    MarkAt(t, m, l + 1);
    MarkAt(t, k + 1, l + 2);
    var x := TestValue(t.env, test, s);
    n, d' := TestRuns(t, p + 1, test, c, d, s, l + 2, k + 1);
    if x.None? {
      FaultEnds(t, p + 1, d, n, k + 2, d', brk, cont, fuel);
    } else if x.value.w == 0 {
      NormalEnds(t, p + 1, d, n, k + 2, d', x.value.s, brk, cont, fuel);
    } else {
      BeginsIs(t, q, b.code, a.c, d', x.value.s);
      n, d' := ForBody(t, p, q, test, step, body, l, a.c, brk, cont, d, x.value.s, n, d', fuel, k);
      var r := AfterBody(Source.Exec(t.env, body, x.value.s, true, true, fuel));
      if r.Normal? {
        var g := StepEnding(t.env, step, r.s);
        if g.Fault? {
          FaultEnds(t, p + 1, d, n, k + 2, d', brk, cont, fuel);
        } else if fuel == 0 {
          TimeoutEnds(t, p + 1, d, n, p + 1, d', k + 2, g.s, brk, cont);
        } else {
          LoopBeginsIs(t, p, test, step, body, l, c, d', g.s);
          var i, d3 := ForLoop(t, p, test, step, body, l, c, brk, cont, d', g.s, fuel - 1);
          IterationEnds(t, p + 1, d, n, p + 1, d', k + 2, brk, cont, Loop(t.env, test, step, body, g.s, fuel - 1), fuel,
                        i, d3);
          n, d' := n + i, d3;
        }
      }
    }
  }

  /** Body and step of a `for` loop from `q`, back to behind its start label. */
  lemma ForBody(t: Site, p: nat, q: nat, test: Option<Expr>, step: Option<Expr>, body: Stmt, l: Label, c: Counters,
                brk: Option<Label>, cont: Option<Label>,
                d: Data, s: Store, n: nat, d1: Data, fuel: nat, k: nat) returns (n': nat, d': Data)
    requires Goes(t, p + 1, d, n, q, d1) && Begins(t, q, LowerStmt(body, c, Some(l + 2), Some(l + 1)).code, c, d1, s)
    requires StmtInScope(body, t.base) && OptionInScope(step, t.base)
    requires p < |t.code| && t.code[p] == Mark(l)
    requires var b := LowerStmt(body, c, Some(l + 2), Some(l + 1));
             var e := LowerStep(step, b.c);
             var m := q + |b.code|;
             && m < |t.code| && t.code[m] == Mark(l + 1) && Placed(t, m + 1, e.code) && k == m + 1 + |e.code|
             && k + 1 < |t.code| && t.code[k] == Jmp(l) && t.code[k + 1] == Mark(l + 2)
    ensures var r := AfterBody(Source.Exec(t.env, body, s, true, true, fuel));
            && (!r.Normal? ==> Ends(t, p + 1, k + 2, brk, cont, d, AfterLoop(r), fuel, n', d'))
            && (r.Normal? ==>
                  var g := StepEnding(t.env, step, r.s);
                  && (g.Fault? || g.Normal?)
                  && (g.Fault? ==> Traps(t, p + 1, d, n'))
                  && (g.Normal? ==> n' >= 1 && Matches(t.base, g.s, d') && Goes(t, p + 1, d, n', p + 1, d')))
    decreases fuel, body, 2, 0
  {
    hide *;
    BeginsIs(t, q, LowerStmt(body, c, Some(l + 2), Some(l + 1)).code, c, d1, s);
    var b := LowerStmt(body, c, Some(l + 2), Some(l + 1));
    var m := q + |b.code|;
    MarkAt(t, m, l + 1);
    MarkAt(t, k + 1, l + 2);
    var r0 := Source.Exec(t.env, body, s, true, true, fuel);
    var r := AfterBody(r0);
    var i, d2 := StmtRuns(t, q, body, c, Some(l + 2), Some(l + 1), d1, s, fuel);
    Passes(t, m, d2);
    DoBodyTurns(t, q, m, m + 1, k + 2, l + 2, l + 1, brk, cont, d1, r0, fuel, i, d2);
    var j := if r0.Normal? then i + 1 else i;
    if r.Normal? {
      GoesThen(t, p + 1, d, n, q, d1, j, m + 1, d2);
      n', d' := StepRuns(t, p + 1, d, n + j, m + 1, d2, step, b.c, r.s, l, p);
    } else {
      EndsAfter(t, p + 1, d, n, q, d1, k + 2, brk, cont, AfterLoop(r), fuel, i, d2);
      n', d' := n + i, d2;
    }
  }

  lemma ForIs(env: Env, st: Stmt, s: Store, b: bool, k: bool, fuel: nat)
    requires st.For?
    ensures var i := if st.start.Some? then Source.Exec(env, st.start.value, s, b, k, fuel) else Normal(s);
            Source.Exec(env, st, s, b, k, fuel) == if !i.Normal? then i
                        else Loop(env, st.test, st.step, st.body1, i.s, fuel)
  {
  }

  lemma ForRuns(t: Site, p: nat, st: Stmt, c: Counters, brk: Option<Label>, cont: Option<Label>, d: Data, s: Store,
                fuel: nat) returns (n: nat, d': Data)
    requires st.For? && Begins(t, p, LowerStmt(st, c, brk, cont).code, c, d, s) && StmtInScope(st, t.base)
    ensures Ends(t, p, p + |LowerStmt(st, c, brk, cont).code|, brk, cont, d,
                 Source.Exec(t.env, st, s, brk.Some?, cont.Some?, fuel), fuel, n, d')
    decreases fuel, st, 0, 1
  {
    hide *;
    BeginsIs(t, p, LowerStmt(st, c, brk, cont).code, c, d, s);
    ScopeIs(st, t.base);
    LabelsOnly(c, 3);
    LowerFor(st, c, brk, cont);
    ForIs(t.env, st, s, brk.Some?, cont.Some?, fuel);
    var first := NextLabels(c, 3);
    var i := if st.start.Some? then LowerStmt(st.start.value, first, brk, cont) else Part([], first);
    var r := if st.start.Some? then Source.Exec(t.env, st.start.value, s, brk.Some?, cont.Some?, fuel) else Normal(s);
    var l := LowerLoop(st.test, st.step, st.body1, c.lab, i.c);
    PlacedSplit(t, p, i.code, l.code);
    var q := p + |i.code|;
    n, d' := 0, d;
    if st.start.Some? {
      BeginsIs(t, p, i.code, first, d, s);
      n, d' := StmtRuns(t, p, st.start.value, first, brk, cont, d, s, fuel);
    } else {
      EndsNow(t, p, brk, cont, d, s, fuel);
    }
    if r.Normal? {
      EndsMatch(t, p, q, brk, cont, d, r, fuel, n, d');
      LoopBeginsIs(t, q, st.test, st.step, st.body1, c.lab, i.c, d', r.s);
      var m, d2 := ForWhole(t, q, st, i.c, c.lab, brk, cont, d', r.s, fuel);
      EndsThen(t, p, q, q + |l.code|, brk, cont, d, r, fuel, n, d', Loop(t.env, st.test, st.step, st.body1, r.s, fuel),
               m, d2);
      n, d' := n + m, d2;
    } else {
      EndsAbruptly(t, p, q, q + |l.code|, brk, cont, d, r, fuel, n, d');
    }
  }

  lemma ForWhole(t: Site, p: nat, st: Stmt, c: Counters, l: Label, brk: Option<Label>, cont: Option<Label>, d: Data,
                 s: Store, fuel: nat) returns (n: nat, d': Data)
    requires st.For? && LoopBegins(t, p, st.test, st.step, st.body1, l, c, d, s)
    ensures Ends(t, p, p + |LowerLoop(st.test, st.step, st.body1, l, c).code|, brk, cont, d,
                 Loop(t.env, st.test, st.step, st.body1, s, fuel), fuel, n, d')
    decreases fuel, st, 0, 0
  {
    hide *;
    LoopBeginsIs(t, p, st.test, st.step, st.body1, l, c, d, s);
    LoopCode(st.test, st.step, st.body1, l, c);
    var a := LowerTest(st.test, l + 2, c);
    var b := LowerStmt(st.body1, a.c, Some(l + 2), Some(l + 1));
    LoopParts(t, p, l, a, b, LowerStep(st.step, b.c));
    MarkPasses(t, p, l, d);
    n, d' := ForLoop(t, p, st.test, st.step, st.body1, l, c, brk, cont, d, s, fuel);
    EndsAfter(t, p, d, 1, p + 1, d, p + |LowerLoop(st.test, st.step, st.body1, l, c).code|, brk, cont,
              Loop(t.env, st.test, st.step, st.body1, s, fuel), fuel, n, d');
    n := n + 1;
  }

  // ----- `switch` -----

  /** The tests of a switch: to the body of the case that is equal, or through to their end. */
  ghost predicate Tested(t: Site, p: nat, ts: Tests, d: Data, r: Option<Choice>, n: nat, d': Data) {
    if r.None? then Traps(t, p, d, n)
    else
      && Matches(t.base, r.value.s, d')
      && (r.value.at.Some? ==> r.value.at.value < |ts.labels|
                               && Goes(t, p, d, n, Find(t.code, ts.labels[r.value.at.value]) + 1, d'))
      && (r.value.at.None? ==> Goes(t, p, d, n, p + |ts.code|, d'))
  }

  ghost predicate MarksExist(t: Site, labels: seq<Label>) {
    forall i :: 0 <= i < |labels| ==> Find(t.code, labels[i]) < |t.code|
  }

  /** One comparison: the case value is evaluated, compared, and the branch taken if equal. */
  lemma CompareRuns(t: Site, p: nat, e: Expr, value: Opnd, w: Word, l: Label, c: Counters, v: nat, d: Data, s: Store)
      returns (n: nat, d': Data)
    requires var a := LowerExpr(e, c);
             Proper(t) && Placed(t, p, a.code + [Bin(CmpEq, a.c.vreg, value, a.o), JmpIf(true, Reg(a.c.vreg), l)])
    requires InScope(e, t.base) && Matches(t.base, s, d) && c.stack >= t.base && Find(t.code, l) < |t.code|
    requires Val(d.regs, value) == Some(w) && (value.Reg? ==> value.v < v) && v <= c.vreg
    ensures var x := Eval(t.env, e, s);
            if x.None? then Traps(t, p, d, n)
            else
              && Matches(t.base, x.value.s, d') && Val(d'.regs, value) == Some(w)
              && Goes(t, p, d, n, if x.value.w == w then Find(t.code, l) + 1 else p + |LowerExpr(e, c).code| + 2, d')
  {
    var a := LowerExpr(e, c);
    var i, j := Bin(CmpEq, a.c.vreg, value, a.o), JmpIf(true, Reg(a.c.vreg), l);
    var x := Eval(t.env, e, s);
    hide Proper, Placed, Goes, Traps, Matches, LowerExpr, Eval, InScope, Keeps, Find, Apply;
    PlacedSplit(t, p, a.code, [i, j]);
    PlacedTwo(t, p + |a.code|, i, j);
    n, d' := ExprRuns(t, p, e, c, d, s);
    if x.Some? {
      var q := p + |a.code|;
      KeepsVal(c.vreg, d, d', value);
      ApplyExec(t.env, CmpEq, a.c.vreg, value, a.o, d', w, x.value.w, x.value.s);
      ApplyEqual(w, x.value.w, x.value.s);
      var d2 := d'.(regs := d'.regs[a.c.vreg := Truth(w == x.value.w)]);
      Executes(t, q, d', d2);
      GoesThen(t, p, d, n, q, d', 1, q + 1, d2);
      KeepsSelf(c.vreg, d');
      SetReg(t.base, x.value.s, c.vreg, d', d', a.c.vreg, Truth(w == x.value.w));
      FoundMark(t, l);
      Branches(t, q + 1, d2, true, Reg(a.c.vreg), l, Find(t.code, l), Truth(w == x.value.w));
      GoesThen(t, p, d, n + 1, q + 1, d2, 1, if x.value.w == w then Find(t.code, l) + 1 else q + 2, d2);
      n, d' := n + 2, d2;
    }
  }

  lemma FoundMark(t: Site, l: Label)
    requires Find(t.code, l) < |t.code|
    ensures t.code[Find(t.code, l)] == Mark(l)
  {
  }

  lemma ApplyEqual(a: Word, b: Word, s: Store)
    ensures Apply(CmpEq, a, b, s) == Some(Res(Truth(a == b), s))
  {
  }

  function Later(c: Option<Choice>): Option<Choice> {
    if c.None? || c.value.at.None? then c else Some(Choice(Some(c.value.at.value + 1), c.value.s))
  }

  lemma RegOnly(c: Counters)
    ensures NextReg(c).stack == c.stack && NextReg(c).vreg == c.vreg + 1
  {
  }

  lemma MarksExistTail(t: Site, labels: seq<Label>, rest: seq<Label>)
    requires MarksExist(t, labels) && |labels| > 0 && labels[1..] == rest
    ensures MarksExist(t, rest) && Find(t.code, labels[0]) < |t.code|
    ensures |labels| == |rest| + 1 && forall i :: 0 <= i < |rest| ==> rest[i] == labels[i + 1]
  {
    hide Find;
  }

  lemma TestedIs(t: Site, p: nat, ts: Tests, d: Data, r: Option<Choice>, n: nat, d': Data)
    ensures Tested(t, p, ts, d, r, n, d') <==>
              if r.None? then Traps(t, p, d, n)
              else
                && Matches(t.base, r.value.s, d')
                && (r.value.at.Some? ==> r.value.at.value < |ts.labels|
                                         && Goes(t, p, d, n, Find(t.code, ts.labels[r.value.at.value]) + 1, d'))
                && (r.value.at.None? ==> Goes(t, p, d, n, p + |ts.code|, d'))
  {
  }

  /** The tests of the first case, and what they select. */
  lemma TestsAre(t: Site, cases: Cases, value: Opnd, c: Counters, w: Word, s: Store)
    requires CasesInScope(cases, t.base)
    ensures var ts := LowerTests(cases, value, c);
            && (cases.NoCase? ==> ts == Tests([], [], None, c) && Select(t.env, cases, w, s) == Some(Choice(None, s)))
            && (cases.Case? && cases.value.None? ==>
                  var rest := LowerTests(cases.rest, value, NextLabels(c, 1));
                  && ts.code == rest.code && ts.labels == [c.lab] + rest.labels && ts.labels[1..] == rest.labels
                  && ts.labels[0] == c.lab
                  && Select(t.env, cases, w, s) == Later(Select(t.env, cases.rest, w, s)))
            && (cases.Case? && cases.value.Some? ==>
                  var a := LowerExpr(cases.value.value, NextLabels(c, 1));
                  var rest := LowerTests(cases.rest, value, NextReg(a.c));
                  && ts.code == a.code + [Bin(CmpEq, a.c.vreg, value, a.o), JmpIf(true, Reg(a.c.vreg), c.lab)]
                      + rest.code
                  && ts.labels == [c.lab] + rest.labels && ts.labels[1..] == rest.labels && ts.labels[0] == c.lab
                  && InScope(cases.value.value, t.base)
                  && var v := Eval(t.env, cases.value.value, s);
                     Select(t.env, cases, w, s) ==
                       if v.None? then None
                       else if v.value.w == w then Some(Choice(Some(0), v.value.s))
                       else Later(Select(t.env, cases.rest, w, v.value.s)))
            && (cases.Case? ==> CasesInScope(cases.rest, t.base))
  {
    hide LowerExpr, Eval, InScope;
  }

  lemma {:induction false} TestsRun(t: Site, p: nat, cases: Cases, value: Opnd, w: Word, c: Counters, v: nat, d: Data,
                                    s: Store) returns (n: nat, d': Data)
    requires Proper(t) && Placed(t, p, LowerTests(cases, value, c).code)
        && MarksExist(t, LowerTests(cases, value, c).labels)
    requires CasesInScope(cases, t.base) && Matches(t.base, s, d) && c.stack >= t.base
    requires Val(d.regs, value) == Some(w) && (value.Reg? ==> value.v < v) && v <= c.vreg
    ensures Tested(t, p, LowerTests(cases, value, c), d, Select(t.env, cases, w, s), n, d')
    decreases cases
  {
    hide *;
    TestsAre(t, cases, value, c, w, s);
    var ts := LowerTests(cases, value, c);
    if cases.NoCase? {
      NoSteps(t, p, d);
      n, d' := 0, d;
      TestedIs(t, p, ts, d, Some(Choice(None, s)), n, d');
    } else if cases.value.None? {
      var rest := LowerTests(cases.rest, value, NextLabels(c, 1));
      LabelsOnly(c, 1);
      MarksExistTail(t, ts.labels, rest.labels);
      n, d' := TestsRun(t, p, cases.rest, value, w, NextLabels(c, 1), v, d, s);
      NoSteps(t, p, d);
      TestedAfter(t, p, d, 0, p, d, rest, ts, Select(t.env, cases.rest, w, s), Select(t.env, cases, w, s), n, d');
    } else {
      var first := NextLabels(c, 1);
      var a := LowerExpr(cases.value.value, first);
      var rest := LowerTests(cases.rest, value, NextReg(a.c));
      LabelsOnly(c, 1);
      RegOnly(a.c);
      MarksExistTail(t, ts.labels, rest.labels);
      var step := [Bin(CmpEq, a.c.vreg, value, a.o), JmpIf(true, Reg(a.c.vreg), c.lab)];
      PlacedSplit(t, p, a.code + step, rest.code);
      n, d' := CompareRuns(t, p, cases.value.value, value, w, c.lab, first, v, d, s);
      var x := Eval(t.env, cases.value.value, s);
      if x.Some? && x.value.w != w {
        var q := p + |a.code| + 2;
        var m, d2 := TestsRun(t, q, cases.rest, value, w, NextReg(a.c), v, d', x.value.s);
        TestedAfter(t, p, d, n, q, d', rest, ts, Select(t.env, cases.rest, w, x.value.s), Select(t.env, cases, w, s), m,
                    d2);
        n, d' := n + m, d2;
      } else {
        TestedIs(t, p, ts, d, Select(t.env, cases, w, s), n, d');
      }
    }
  }

  lemma CasesScope(cases: Cases, base: nat)
    requires CasesInScope(cases, base) && cases.Case?
    ensures (cases.value.Some? ==> InScope(cases.value.value, base)) && AllInScope(cases.stmts, base)
        && CasesInScope(cases.rest, base)
  {
  }

  lemma TestedAfter(t: Site, p: nat, d: Data, n: nat, q: nat, d1: Data, rest: Tests, ts: Tests, r: Option<Choice>,
                    r': Option<Choice>, m: nat, d2: Data)
    requires Goes(t, p, d, n, q, d1) && Tested(t, q, rest, d1, r, m, d2) && r' == Later(r)
    requires |ts.labels| == |rest.labels| + 1 && forall i :: 0 <= i < |rest.labels| ==>
                                                               rest.labels[i] == ts.labels[i + 1]
    requires q + |rest.code| == p + |ts.code|
    ensures Tested(t, p, ts, d, r', n + m, d2)
  {
    GoesOn(t, p, d, n, q, d1, m);
    hide Find;
  }

  /** The default label is that of the last default. */
  lemma {:induction false} FallbackIs(cases: Cases, value: Opnd, c: Counters)
    ensures var ts := LowerTests(cases, value, c);
            && (ts.fallback.Some? <==> DefaultOf(cases).Some?)
            && (ts.fallback.Some? ==> ts.fallback.value == ts.labels[DefaultOf(cases).value])
    decreases cases
  {
    if cases.Case? {
      FallbackIs(cases.rest, value, if cases.value.None? then NextLabels(c, 1)
                  else NextReg(LowerExpr(cases.value.value, NextLabels(c, 1)).c));
    }
  }

  lemma BodiesParts(t: Site, p: nat, cases: Cases, labels: seq<Label>, c: Counters, end: Label, cont: Option<Label>)
    requires cases.Case? && |labels| == Count(cases) && Placed(t, p, LowerBodies(cases, labels, c, end, cont).code)
    ensures var a := LowerAll(cases.stmts, c, Some(end), cont);
            var b := LowerBodies(cases.rest, labels[1..], a.c, end, cont);
            var q := p + 1 + |a.code|;
            && p < |t.code| && t.code[p] == Mark(labels[0]) && Placed(t, p + 1, a.code) && Placed(t, q, b.code)
            && p + |LowerBodies(cases, labels, c, end, cont).code| == q + |b.code|
  {
    var a := LowerAll(cases.stmts, c, Some(end), cont);
    var b := LowerBodies(cases.rest, labels[1..], a.c, end, cont);
    var first := [Mark(labels[0])];
    assert LowerBodies(cases, labels, c, end, cont).code == first + a.code + b.code;
    hide Placed, LowerBodies, LowerAll;
    PlacedSplit(t, p, first + a.code, b.code);
    PlacedSplit(t, p, first, a.code);
    PlacedOne(t, p, first[0]);
  }

  lemma HasCase(cases: Cases)
    ensures Count(cases) > 0 <==> cases.Case?
    ensures cases.Case? ==> Count(cases) == Count(cases.rest) + 1
  {
  }

  lemma ExecFromLater(env: Env, cases: Cases, i: nat, s: Store, cont: bool, fuel: nat)
    requires 0 < i < Count(cases)
    ensures ExecFrom(env, cases, i, s, cont, fuel) == ExecFrom(env, cases.rest, i - 1, s, cont, fuel)
  {
  }

  /** The bodies from the `i`-th on, entered behind its label. */
  lemma BodiesRun(t: Site, p: nat, cases: Cases, labels: seq<Label>, c: Counters, end: Label, cont: Option<Label>,
                  i: nat, d: Data, s: Store, fuel: nat) returns (n: nat, d': Data)
    requires |labels| == Count(cases) && i < Count(cases)
    requires Begins(t, p, LowerBodies(cases, labels, c, end, cont).code, c, d, s) && CasesInScope(cases, t.base)
    ensures Find(t.code, labels[i]) < |t.code|
    ensures Ends(t, Find(t.code, labels[i]) + 1, p + |LowerBodies(cases, labels, c, end, cont).code|, Some(end), cont,
                 d,
                 ExecFrom(t.env, cases, i, s, cont.Some?, fuel), fuel, n, d')
    decreases fuel, cases, 0
  {
    hide *;
    BeginsIs(t, p, LowerBodies(cases, labels, c, end, cont).code, c, d, s);
    HasCase(cases);
    BodiesParts(t, p, cases, labels, c, end, cont);
    CasesScope(cases, t.base);
    var a := LowerAll(cases.stmts, c, Some(end), cont);
    var b := LowerBodies(cases.rest, labels[1..], a.c, end, cont);
    var q := p + 1 + |a.code|;
    var stop := q + |b.code|;
    if i > 0 {
      assert labels[1..][i - 1] == labels[i];
      BeginsIs(t, q, b.code, a.c, d, s);
      ExecFromLater(t.env, cases, i, s, cont.Some?, fuel);
      n, d' := BodiesRun(t, q, cases.rest, labels[1..], a.c, end, cont, i - 1, d, s, fuel);
    } else {
      var r := ExecAll(t.env, cases.stmts, s, true, cont.Some?, fuel);
      ExecFromFirst(t.env, cases, s, cont.Some?, fuel);
      MarkPasses(t, p, labels[0], d);
      FoundAt(t, p, labels[0]);
      BeginsIs(t, p + 1, a.code, c, d, s);
      n, d' := AllRuns(t, p + 1, cases.stmts, c, Some(end), cont, d, s, fuel);
      if !r.Normal? {
        EndsAbruptly(t, p + 1, q, stop, Some(end), cont, d, r, fuel, n, d');
      } else {
        EndsMatch(t, p + 1, q, Some(end), cont, d, r, fuel, n, d');
        BeginsIs(t, q, b.code, a.c, d', r.s);
        var m, d2 := RestRuns(t, q, cases.rest, labels[1..], a.c, end, cont, d', r.s, fuel);
        EndsThen(t, p + 1, q, stop, Some(end), cont, d, r, fuel, n, d',
                 ExecFrom(t.env, cases.rest, 0, r.s, cont.Some?, fuel), m, d2);
        n, d' := n + m, d2;
      }
    }
  }

  lemma FoundAt(t: Site, p: nat, l: Label)
    requires Proper(t) && p < |t.code| && t.code[p] == Mark(l)
    ensures Find(t.code, l) == p < |t.code|
  {
    MarkAt(t, p, l);
  }

  lemma ExecFromFirst(env: Env, cases: Cases, s: Store, cont: bool, fuel: nat)
    requires cases.Case?
    ensures var r := ExecAll(env, cases.stmts, s, true, cont, fuel);
            ExecFrom(env, cases, 0, s, cont, fuel) == if r.Normal? then ExecFrom(env, cases.rest, 0, r.s, cont, fuel)
                        else r
  {
  }

  /** Falling through to the bodies that follow. */
  lemma RestRuns(t: Site, p: nat, cases: Cases, labels: seq<Label>, c: Counters, end: Label, cont: Option<Label>,
                 d: Data, s: Store, fuel: nat) returns (n: nat, d': Data)
    requires |labels| == Count(cases)
    requires Begins(t, p, LowerBodies(cases, labels, c, end, cont).code, c, d, s) && CasesInScope(cases, t.base)
    ensures Ends(t, p, p + |LowerBodies(cases, labels, c, end, cont).code|, Some(end), cont, d,
                 ExecFrom(t.env, cases, 0, s, cont.Some?, fuel), fuel, n, d')
    decreases fuel, cases, 1
  {
    hide *;
    BeginsIs(t, p, LowerBodies(cases, labels, c, end, cont).code, c, d, s);
    if cases.NoCase? {
      NoBodies(t.env, cases, labels, c, end, cont, s, fuel);
      EndsNow(t, p, Some(end), cont, d, s, fuel);
      n, d' := 0, d;
    } else {
      HasCase(cases);
      BodiesParts(t, p, cases, labels, c, end, cont);
      MarkPasses(t, p, labels[0], d);
      FoundAt(t, p, labels[0]);
      n, d' := BodiesRun(t, p, cases, labels, c, end, cont, 0, d, s, fuel);
      EndsAfter(t, p, d, 1, p + 1, d, p + |LowerBodies(cases, labels, c, end, cont).code|, Some(end), cont,
                ExecFrom(t.env, cases, 0, s, cont.Some?, fuel), fuel, n, d');
      n := n + 1;
    }
  }

  lemma NoBodies(env: Env, cases: Cases, labels: seq<Label>, c: Counters, end: Label, cont: Option<Label>, s: Store,
                 fuel: nat)
    requires cases.NoCase? && |labels| == Count(cases)
    ensures LowerBodies(cases, labels, c, end, cont).code == []
        && ExecFrom(env, cases, 0, s, cont.Some?, fuel) == Normal(s)
  {
  }

  lemma SwitchIs(env: Env, st: Stmt, s: Store, b: bool, k: bool, fuel: nat)
    requires st.Switch?
    ensures var x := Eval(env, st.e, s);
            && (x.None? ==> Source.Exec(env, st, s, b, k, fuel) == Fault)
            && (x.Some? ==>
                  var c := Select(env, st.cases, x.value.w, x.value.s);
                  && (c.None? ==> Source.Exec(env, st, s, b, k, fuel) == Fault)
                  && (c.Some? ==>
                        var at := if c.value.at.Some? then c.value.at else DefaultOf(st.cases);
                        Source.Exec(env, st, s, b, k, fuel) ==
                          if at.None? then Normal(c.value.s) else AfterLoop(ExecFrom(env, st.cases, at.value, c.value.s,
                                  k, fuel))))
  {
  }

  /** The bodies of a switch leave it at its end label. */
  lemma BodiesLeave(t: Site, p: nat, stop: nat, end: Label, brk: Option<Label>, cont: Option<Label>, d: Data, r: Ending,
                    fuel: nat, n: nat, d': Data) returns (n': nat)
    requires Proper(t) && Ends(t, p, stop, Some(end), cont, d, r, fuel, n, d') && stop < |t.code|
        && t.code[stop] == Mark(end)
    ensures Ends(t, p, stop + 1, brk, cont, d, AfterLoop(r), fuel, n', d')
  {
    n' := n;
    MarkAt(t, stop, end);
    if r.Normal? {
      Passes(t, stop, d');
      GoesThen(t, p, d, n, stop, d', 1, stop + 1, d');
      n' := n + 1;
    }
    hide Goes, Matches, Proper;
  }

  lemma {:induction false} MarksAt(t: Site, p: nat, cases: Cases, labels: seq<Label>, c: Counters, end: Label,
                                   cont: Option<Label>)
    requires |labels| == Count(cases) && Proper(t) && Placed(t, p, LowerBodies(cases, labels, c, end, cont).code)
    ensures MarksExist(t, labels)
    decreases cases
  {
    if cases.Case? {
      BodiesParts(t, p, cases, labels, c, end, cont);
      var a := LowerAll(cases.stmts, c, Some(end), cont);
      hide Proper, Placed, LowerBodies, LowerAll, Find;
      FoundAt(t, p, labels[0]);
      MarksAt(t, p + 1 + |a.code|, cases.rest, labels[1..], a.c, end, cont);
      forall i | 0 <= i < |labels| ensures Find(t.code, labels[i]) < |t.code| {
        if i > 0 { assert labels[i] == labels[1..][i - 1]; }
      }
    }
  }

  lemma SwitchRuns(t: Site, p: nat, st: Stmt, c: Counters, brk: Option<Label>, cont: Option<Label>, d: Data, s: Store,
                   fuel: nat) returns (n: nat, d': Data)
    requires st.Switch? && Begins(t, p, LowerStmt(st, c, brk, cont).code, c, d, s) && StmtInScope(st, t.base)
    ensures Ends(t, p, p + |LowerStmt(st, c, brk, cont).code|, brk, cont, d,
                 Source.Exec(t.env, st, s, brk.Some?, cont.Some?, fuel), fuel, n, d')
    decreases fuel, st, 0, 1
  {
    hide *;
    BeginsIs(t, p, LowerStmt(st, c, brk, cont).code, c, d, s);
    ScopeIs(st, t.base);
    LabelsOnly(c, 1);
    LowerSwitch(st, c, brk, cont);
    SwitchIs(t.env, st, s, brk.Some?, cont.Some?, fuel);
    var first := NextLabels(c, 1);
    var a := LowerExpr(st.e, first);
    var ts := LowerTests(st.cases, a.o, a.c);
    var b := LowerBodies(st.cases, ts.labels, ts.c, c.lab, cont);
    SwitchParts(t, p, c.lab, a, ts, b);
    var q := p + |a.code|;
    var m := q + |ts.code|;
    var k := m + 1 + |b.code|;
    var x := Eval(t.env, st.e, s);
    n, d' := ExprRuns(t, p, st.e, first, d, s);
    YieldsIs(t, p, a, first.vreg, d, x, n, d');
    if x.None? {
      FaultEnds(t, p, d, n, k + 1, d', brk, cont, fuel);
    } else {
      MarksAt(t, m + 1, st.cases, ts.labels, ts.c, c.lab, cont);
      var j, d2 := TestsRun(t, q, st.cases, a.o, x.value.w, a.c, a.c.vreg, d', x.value.s);
      var choice := Select(t.env, st.cases, x.value.w, x.value.s);
      if choice.None? {
        TestedIs(t, q, ts, d', choice, j, d2);
        TrapsThen(t, p, d, n, q, d', j);
        FaultEnds(t, p, d, n + j, k + 1, d', brk, cont, fuel);
        n := n + j;
      } else {
        FallbackIs(st.cases, a.o, a.c);
        TestedIs(t, q, ts, d', choice, j, d2);
        BeginsIs(t, m + 1, b.code, ts.c, d2, choice.value.s);
        n, d' := SwitchBodies(t, p, st, c, brk, cont, d, n, q, d', ts, choice.value, j, d2, m, fuel);
      }
    }
  }

  lemma MarksExistAll(t: Site, labels: seq<Label>)
    requires MarksExist(t, labels)
    ensures forall i :: 0 <= i < |labels| ==> Find(t.code, labels[i]) < |t.code|
  {
  }

  /** From the tests to the chosen body, and out at the end label. */
  lemma SwitchBodies(t: Site, p: nat, st: Stmt, c: Counters, brk: Option<Label>, cont: Option<Label>, d: Data, n: nat,
                     q: nat, d1: Data,
                     ts: Tests, choice: Choice, j: nat, d2: Data, m: nat, fuel: nat) returns (n': nat, d': Data)
    requires st.Switch? && |ts.labels| == Count(st.cases) && Goes(t, p, d, n, q, d1)
        && Tested(t, q, ts, d1, Some(choice), j, d2) && m == q + |ts.code|
    requires ts.fallback.Some? <==> DefaultOf(st.cases).Some?
    requires ts.fallback.Some? ==> ts.fallback.value == ts.labels[DefaultOf(st.cases).value]
    requires m < |t.code| && t.code[m] == Jmp(if ts.fallback.Some? then ts.fallback.value else c.lab)
    requires Begins(t, m + 1, LowerBodies(st.cases, ts.labels, ts.c, c.lab, cont).code, ts.c, d2, choice.s)
        && CasesInScope(st.cases, t.base)
    requires MarksExist(t, ts.labels)
    requires var k := m + 1 + |LowerBodies(st.cases, ts.labels, ts.c, c.lab, cont).code|;
            k < |t.code| && t.code[k] == Mark(c.lab)
    requires choice.at.Some? ==> choice.at.value < Count(st.cases)
    ensures var k := m + 1 + |LowerBodies(st.cases, ts.labels, ts.c, c.lab, cont).code|;
            var at := if choice.at.Some? then choice.at else DefaultOf(st.cases);
            Ends(t, p, k + 1, brk, cont, d, if at.None? then Normal(choice.s)
                        else AfterLoop(ExecFrom(t.env, st.cases, at.value, choice.s, cont.Some?, fuel)), fuel, n', d')
    decreases fuel, st, 0, 0
  {
    hide *;
    TestedIs(t, q, ts, d1, Some(choice), j, d2);
    BeginsIs(t, m + 1, LowerBodies(st.cases, ts.labels, ts.c, c.lab, cont).code, ts.c, d2, choice.s);
    MarksExistAll(t, ts.labels);
    var k := m + 1 + |LowerBodies(st.cases, ts.labels, ts.c, c.lab, cont).code|;
    var at := if choice.at.Some? then choice.at else DefaultOf(st.cases);
    var target := Find(t.code, if at.Some? then ts.labels[at.value] else c.lab);
    n' := n + j;
    d' := d2;
    if choice.at.Some? {
      GoesThen(t, p, d, n, q, d1, j, target + 1, d2);
    } else {
      GoesThen(t, p, d, n, q, d1, j, m, d2);
      FoundAt(t, k, c.lab);
      if at.Some? { FoundMark(t, ts.labels[at.value]); }
      Jumps(t, m, d2, if at.Some? then ts.labels[at.value] else c.lab, target);
      GoesThen(t, p, d, n + j, m, d2, 1, target + 1, d2);
      n' := n + j + 1;
    }
    if at.None? {
      NormalEnds(t, p, d, n', k + 1, d2, choice.s, brk, cont, fuel);
    } else {
      var i, d3 := BodiesRun(t, m + 1, st.cases, ts.labels, ts.c, c.lab, cont, at.value, d2, choice.s, fuel);
      var r := ExecFrom(t.env, st.cases, at.value, choice.s, cont.Some?, fuel);
      i := BodiesLeave(t, target + 1, k, c.lab, brk, cont, d2, r, fuel, i, d3);
      EndsAfter(t, p, d, n', target + 1, d2, k + 1, brk, cont, AfterLoop(r), fuel, i, d3);
      n', d' := n' + i, d3;
    }
  }
}
