/** Laws of the source language that relate its constructs to one another: what a shorter form means is what the
    longer one means. */
module SourceLaws {
  import opened Word64
  import opened IR
  import opened Source

  /** `++x` is `x += 1`, and `x++` leaves the same store with the value from before; `--` likewise. */
  lemma Increments(env: Env, up: bool, p: Place, s: Store)
    ensures Eval(env, Bump(up, true, p), s) == Eval(env, Update(if up then Add else Sub, p, Lit(1)), s)
    ensures var before := Eval(env, Var(p), s);
            var prefix := Eval(env, Bump(up, true, p), s);
            && before.Some? && prefix.Some?
            && Eval(env, Bump(up, false, p), s) == Some(Res(before.value.w, prefix.value.s))
  {
  }

  /** The value of an assignment is what the variable holds behind it, the left side being a local. */
  lemma AssignmentStays(env: Env, k: int, e: Expr, s: Store)
    ensures var a := Eval(env, Assign(Local(k), e), s);
            && (a.Some? <==> Eval(env, e, s).Some?)
            && (a.Some? ==> a.value.w == Eval(env, e, s).value.w
                            && Eval(env, Var(Local(k)), a.value.s) == Some(a.value))
    ensures forall j :: j != k && Eval(env, Assign(Local(k), e), s).Some? ==>
              Eval(env, Var(Local(j)), Eval(env, Assign(Local(k), e), s).value.s)
              == Some(Res(Fetch(env, Local(j), Eval(env, e, s).value.s), Eval(env, Assign(Local(k), e), s).value.s))
  {
  }

  /** `x op= n` is `x = x op n`. */
  lemma CompoundAssignment(env: Env, op: CompoundOp, p: Place, n: Word, s: Store)
    ensures Eval(env, Update(op, p, Lit(n)), s) == Eval(env, Assign(p, Binary(op, Var(p), Lit(n))), s)
  {
    hide Alu;
    assert Eval(env, Var(p), s) == Some(Res(Fetch(env, p, s), s)) && Eval(env, Lit(n), s) == Some(Res(n, s));
    assert Eval(env, Binary(op, Var(p), Lit(n)), s) == Apply(op, Fetch(env, p, s), n, s);
  }

  /** `-x`, `~x` and `!x`. */
  lemma Negation(env: Env, e: Expr, s: Store)
    ensures Eval(env, Neg(e), s) == Eval(env, Binary(Sub, Lit(0), e), s)
  {
    assert Eval(env, Lit(0), s) == Some(Res(0, s));
  }

  lemma Inversion(env: Env, e: Expr, s: Store)
    ensures Eval(env, Inv(e), s) == Eval(env, Binary(Xor, e, Lit(-1)), s)
  {
    hide Bitwise, Wrap;
    var a := Eval(env, e, s);
    if a.Some? {
      Complement(a.value.w);
      assert Eval(env, Lit(-1), a.value.s) == Some(Res(-1, a.value.s));
    }
  }

  lemma LogicalNot(env: Env, e: Expr, s: Store)
    ensures Eval(env, LogNot(e), s) == Eval(env, Binary(CmpEq, e, Lit(0)), s)
  {
    var a := Eval(env, e, s);
    if a.Some? { assert Eval(env, Lit(0), a.value.s) == Some(Res(0, a.value.s)); }
  }

  lemma ConditionalIs(env: Env, c: Expr, l: Expr, r: Expr, s: Store)
    ensures var a := Eval(env, c, s);
            Eval(env, Conditional(c, l, r), s)
            == if a.None? then None else Eval(env, if a.value.w != 0 then l else r, a.value.s)
  {
  }

  lemma LiteralIs(env: Env, n: Word, s: Store)
    ensures Eval(env, Lit(n), s) == Some(Res(n, s))
  {
  }

  /** `a && b` is `a ? !!b : 0`: the right side is evaluated only if it decides. */
  lemma ShortAnd(env: Env, l: Expr, r: Expr, s: Store)
    ensures Eval(env, LogAnd(l, r), s) == Eval(env, Conditional(l, LogNot(LogNot(r)), Lit(0)), s)
  {
    ConditionalIs(env, l, LogNot(LogNot(r)), Lit(0), s);
    var a := Eval(env, l, s);
    if a.Some? {
      TwiceNot(env, r, a.value.s);
      LiteralIs(env, 0, a.value.s);
    }
  }

  /** `a || b` is `a ? 1 : !!b`. */
  lemma ShortOr(env: Env, l: Expr, r: Expr, s: Store)
    ensures Eval(env, LogOr(l, r), s) == Eval(env, Conditional(l, Lit(1), LogNot(LogNot(r))), s)
  {
    ConditionalIs(env, l, Lit(1), LogNot(LogNot(r)), s);
    var a := Eval(env, l, s);
    if a.Some? {
      TwiceNot(env, r, a.value.s);
      LiteralIs(env, 1, a.value.s);
    }
  }

  lemma TwiceNot(env: Env, e: Expr, s: Store)
    ensures var a := Eval(env, e, s);
            Eval(env, LogNot(LogNot(e)), s) == if a.None? then None else Some(Res(Truth(a.value.w != 0), a.value.s))
  {
    var a := Eval(env, e, s);
    assert Eval(env, LogNot(e), s) == if a.None? then None else Some(Res(Truth(a.value.w == 0), a.value.s));
  }

  /** Binary operators evaluate from left to right. */
  lemma LeftToRight(env: Env, op: BinOp, l: Expr, r: Expr, s: Store)
    requires Eval(env, l, s).Some? && Eval(env, r, Eval(env, l, s).value.s).Some?
    ensures var a := Eval(env, l, s).value;
            var b := Eval(env, r, a.s).value;
            Eval(env, Binary(op, l, r), s) == Eval(env, Binary(op, Lit(a.w), Lit(b.w)), b.s)
  {
    hide Alu;
  }

  // ----- statements -----

  /** `while (c) s` is `for (; c;) s`. */
  lemma {:induction false} WhileIsFor(env: Env, c: Expr, body: Stmt, s: Store, brk: bool, cont: bool, fuel: nat)
    ensures Source.Exec(env, While(c, body), s, brk, cont, fuel)
         == Source.Exec(env, For(None, Some(c), None, body), s, brk, cont, fuel)
    decreases fuel
  {
    var a := Eval(env, c, s);
    if a.Some? && a.value.w != 0 {
      var b := AfterBody(Source.Exec(env, body, a.value.s, true, true, fuel));
      if b.Normal? && fuel > 0 { WhileIsFor(env, c, body, b.s, brk, cont, fuel - 1); }
    }
  }

  /** `for (i; t; u) s` is `{ i; for (; t; u) s }`, and a missing test holds. */
  lemma ForBegins(env: Env, start: Stmt, test: Option<Expr>, step: Option<Expr>, body: Stmt, s: Store, brk: bool,
                  cont: bool, fuel: nat)
    ensures Source.Exec(env, For(Some(start), test, step, body), s, brk, cont, fuel)
         == Source.Exec(env, Block(Cons(start, Cons(For(None, test, step, body), Nil))), s, brk, cont, fuel)
  {
    var i := Source.Exec(env, start, s, brk, cont, fuel);
    var rest := Cons(For(None, test, step, body), Nil);
    assert ExecAll(env, Cons(start, rest), s, brk, cont, fuel)
        == if i.Normal? then ExecAll(env, rest, i.s, brk, cont, fuel) else i;
    if i.Normal? {
      var f := Source.Exec(env, For(None, test, step, body), i.s, brk, cont, fuel);
      assert f == Loop(env, test, step, body, i.s, fuel);
      assert ExecAll(env, rest, i.s, brk, cont, fuel) == if f.Normal? then Normal(f.s) else f;
    }
  }

  /** A `do` loop whose condition is false at once, and one whose body leaves it. */
  lemma DoOnce(env: Env, body: Stmt, c: Expr, s: Store, brk: bool, cont: bool, fuel: nat)
    ensures var b := Source.Exec(env, body, s, true, true, fuel);
            var d := Source.Exec(env, DoWhile(body, c), s, brk, cont, fuel);
            && (b.Broke? ==> d == Normal(b.s))
            && (b.Returned? || b.Fault? || b.Timeout? ==> d == b)
            && ((b.Normal? || b.Continued?) && Eval(env, c, b.s).Some? && Eval(env, c, b.s).value.w == 0 ==>
                  d == Normal(Eval(env, c, b.s).value.s))
            && ((b.Normal? || b.Continued?) && Eval(env, c, b.s).Some? && Eval(env, c, b.s).value.w != 0 && fuel > 0 ==>
                  d == Source.Exec(env, DoWhile(body, c), Eval(env, c, b.s).value.s, brk, cont, fuel - 1))
  {
  }

  /** A `switch` with cases for two constants and a default between them runs on from the case that is chosen. */
  lemma SwitchFallsThrough(env: Env, w: Word, x: Word, y: Word, a: Stmts, b: Stmts, d: Stmts, s: Store, brk: bool,
                           cont: bool, fuel: nat)
    requires x != y
    ensures var cases := Case(Some(Lit(x)), a, Case(None, d, Case(Some(Lit(y)), b, NoCase)));
            var all := if w == x then [a, d, b] else if w == y then [b] else [d, b];
            Source.Exec(env, Switch(Lit(w), cases), s, brk, cont, fuel) == AfterLoop(InTurn(env, all, s, cont, fuel))
  {
    var last := Case(Some(Lit(y)), b, NoCase);
    var middle := Case(None, d, last);
    var cases := Case(Some(Lit(x)), a, middle);
    assert Select(env, last, w, s) == Some(Choice(if w == y then Some(0) else None, s));
    assert Select(env, middle, w, s) == Some(Choice(if w == y then Some(1) else None, s));
    assert Select(env, cases, w, s)
        == Some(Choice(if w == x then Some(0) else if w == y then Some(2) else None, s));
    assert DefaultOf(last) == None;
    assert DefaultOf(middle) == Some(0);
    assert DefaultOf(cases) == Some(1);
    forall t: Store ensures ExecFrom(env, last, 0, t, cont, fuel) == InTurn(env, [b], t, cont, fuel) {
      FromLast(env, y, b, t, cont, fuel);
    }
    forall t: Store ensures ExecFrom(env, middle, 0, t, cont, fuel) == InTurn(env, [d, b], t, cont, fuel) {
      FromCase(env, None, d, last, [b], t, cont, fuel);
      assert [d] + [b] == [d, b];
    }
    FromCase(env, Some(Lit(x)), a, middle, [d, b], s, cont, fuel);
    assert [a] + [d, b] == [a, d, b];
    assert ExecFrom(env, cases, 1, s, cont, fuel) == ExecFrom(env, middle, 0, s, cont, fuel);
    assert ExecFrom(env, cases, 2, s, cont, fuel) == ExecFrom(env, middle, 1, s, cont, fuel)
        == ExecFrom(env, last, 0, s, cont, fuel);
  }

  lemma FromLast(env: Env, y: Word, b: Stmts, t: Store, cont: bool, fuel: nat)
    ensures ExecFrom(env, Case(Some(Lit(y)), b, NoCase), 0, t, cont, fuel) == InTurn(env, [b], t, cont, fuel)
  {
    assert [b][1..] == [];
    var r := ExecAll(env, b, t, true, cont, fuel);
    assert r.Normal? ==> ExecFrom(env, NoCase, 0, r.s, cont, fuel) == Normal(r.s);
  }

  lemma FromCase(env: Env, value: Option<Expr>, body: Stmts, rest: Cases, bodies: seq<Stmts>, t: Store, cont: bool,
                 fuel: nat)
    requires forall t': Store :: ExecFrom(env, rest, 0, t', cont, fuel) == InTurn(env, bodies, t', cont, fuel)
    ensures ExecFrom(env, Case(value, body, rest), 0, t, cont, fuel) == InTurn(env, [body] + bodies, t, cont, fuel)
  {
    assert ([body] + bodies)[1..] == bodies;
  }

  /** The bodies one after another, until one does not end normally. */
  function InTurn(env: Env, bodies: seq<Stmts>, s: Store, cont: bool, fuel: nat): Ending {
    if bodies == [] then Normal(s)
    else
      var r := ExecAll(env, bodies[0], s, true, cont, fuel);
      if r.Normal? then InTurn(env, bodies[1..], r.s, cont, fuel) else r
  }
}
