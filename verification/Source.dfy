/** The structured part of the source language: signed 64-bit locals, globals and memory cells, every
    operator with its order of evaluation, calls, and the control statements; with their direct meaning.

    A local is named by its frame offset. A trapping division has no value (`None`). Statements are
    executed with a limit on loop iterations, `Timeout` saying where the limit was used up; a statement
    that times out for every limit runs forever. */
module Source {
  import opened Word64
  import opened IR

  datatype Place = Local(k: int) | Global(g: nat)

  /** The operators that have a compound assignment. */
  predicate HasCompound(op: BinOp) {
    op in {Add, Sub, Mul, Div, Mod, And, Or, Xor, Shl, Shr}
  }

  type CompoundOp = op: BinOp | HasCompound(op) witness Add

  datatype Expr =
    | Lit(n: Word)
    | Var(place: Place)
    | Addr(place: Place)
    | Deref(pointer: Expr)
    | Neg(e: Expr)
    | Inv(e: Expr)
    | LogNot(e: Expr)
    | Binary(op: BinOp, l: Expr, r: Expr)
    | LogAnd(l: Expr, r: Expr)
    | LogOr(l: Expr, r: Expr)
    | Conditional(cond: Expr, l: Expr, r: Expr)
    | Comma(l: Expr, r: Expr)
    | Assign(place: Place, e: Expr)
    | AssignVia(pointer: Expr, e: Expr)
    | Update(cop: CompoundOp, place: Place, e: Expr)
    | Bump(up: bool, prefix: bool, place: Place)
    | Invoke(name: nat, args: Exprs)

  datatype Exprs = NoExpr | MoreExprs(head: Expr, tail: Exprs)

  datatype Stmt =
    | ExprStmt(e: Expr)
    | VarDecl(k: int, init: Option<Expr>)
    | Block(body: Stmts)
    | If(cond: Expr, yes: Stmt, no: Option<Stmt>)
    | While(cond: Expr, body1: Stmt)
    | DoWhile(body1: Stmt, cond: Expr)
    | For(start: Option<Stmt>, test: Option<Expr>, step: Option<Expr>, body1: Stmt)
    | Switch(e: Expr, cases: Cases)
    | Break
    | Continue
    | Return(value: Option<Expr>)

  datatype Stmts = Nil | Cons(head: Stmt, tail: Stmts)

  /** `case` labels with the statements behind them; a label without a value is `default`. */
  datatype Cases = NoCase | Case(value: Option<Expr>, stmts: Stmts, rest: Cases)

  // ----- expressions -----

  datatype Store = Store(vars: Slots, trace: Trace)

  datatype Res = Res(w: Word, s: Store)

  datatype Results = Results(ws: seq<Word>, s: Store)

  function Fetch(env: Env, p: Place, s: Store): Word {
    match p
    case Local(k) => Slot(s.vars, k)
    case Global(g) => env.global(s.trace, g, 8, false)
  }

  function Put(p: Place, w: Word, s: Store): Store {
    match p
    case Local(k) => s.(vars := s.vars[k := w])
    case Global(g) => s.(trace := s.trace + [GlobalStored(g, 8, w)])
  }

  function Apply(op: BinOp, a: Word, b: Word, s: Store): Option<Res> {
    var w := Alu(op, a, b);
    if w.Some? then Some(Res(w.value, s)) else None
  }

  function AddressOf(env: Env, p: Place): Word {
    match p
    case Local(k) => env.slotAddress(k)
    case Global(g) => env.symbolAddress(g)
  }

  function AsData(s: Store): Data {
    Data(map[], s.vars, s.trace)
  }

  /** What a pointer reads: a local or memory outside; there is no value where nothing lies. */
  function ReadVia(env: Env, a: Word, s: Store): Option<Word> {
    if Accessible(env, a) then Some(LoadVia(env, AsData(s), a, 8, false)) else None
  }

  function WriteVia(env: Env, a: Word, w: Word, s: Store): Option<Store> {
    var d := StoreVia(env, AsData(s), a, 8, w);
    if Accessible(env, a) then Some(Store.Store(d.slots, d.trace)) else None
  }

  /** A call: the callee sees its arguments, what was done before, and the shared locals, which it may change. */
  function Invoked(env: Env, name: nat, r: Results): Res {
    var t := Named(name);
    var answer := Answer(env, r.s.trace, t, r.ws, r.s.vars);
    Res(answer.value, Store.Store(answer.slots, r.s.trace + [Called(t, r.ws, Shown(env, r.s.vars))]))
  }

  /** The value of an expression and the store behind it, left operand first. */
  function Eval(env: Env, e: Expr, s: Store): Option<Res> {
    match e
    case Lit(n) => Some(Res(n, s))
    case Var(p) => Some(Res(Fetch(env, p, s), s))
    case Addr(p) => Some(Res(AddressOf(env, p), s))
    case Deref(p) =>
      var a := Eval(env, p, s);
      if a.None? then None
      else
        var w := ReadVia(env, a.value.w, a.value.s);
        if w.None? then None else Some(Res(w.value, a.value.s))
    case Neg(x) =>
      var a := Eval(env, x, s);
      if a.None? then None else Some(Res(Wrap(-(a.value.w as int)), a.value.s))
    case Inv(x) =>
      var a := Eval(env, x, s);
      if a.None? then None else Some(Res(Wrap(-(a.value.w as int) - 1), a.value.s))
    case LogNot(x) =>
      var a := Eval(env, x, s);
      if a.None? then None else Some(Res(Truth(a.value.w == 0), a.value.s))
    case Binary(op, l, r) =>
      var a := Eval(env, l, s);
      if a.None? then None
      else
        var b := Eval(env, r, a.value.s);
        if b.None? then None else Apply(op, a.value.w, b.value.w, b.value.s)
    case LogAnd(l, r) =>
      var a := Eval(env, l, s);
      if a.None? then None
      else if a.value.w == 0 then Some(Res(0, a.value.s))
      else
        var b := Eval(env, r, a.value.s);
        if b.None? then None else Some(Res(Truth(b.value.w != 0), b.value.s))
    case LogOr(l, r) =>
      var a := Eval(env, l, s);
      if a.None? then None
      else if a.value.w != 0 then Some(Res(1, a.value.s))
      else
        var b := Eval(env, r, a.value.s);
        if b.None? then None else Some(Res(Truth(b.value.w != 0), b.value.s))
    case Conditional(c, l, r) =>
      var a := Eval(env, c, s);
      if a.None? then None
      else if a.value.w != 0 then Eval(env, l, a.value.s) else Eval(env, r, a.value.s)
    case Comma(l, r) =>
      var a := Eval(env, l, s);
      if a.None? then None else Eval(env, r, a.value.s)
    case Assign(p, x) =>
      var a := Eval(env, x, s);
      if a.None? then None else Some(Res(a.value.w, Put(p, a.value.w, a.value.s)))
    case AssignVia(p, x) =>
      var a := Eval(env, x, s);
      if a.None? then None
      else
        var q := Eval(env, p, a.value.s);
        if q.None? then None
        else
          var s' := WriteVia(env, q.value.w, a.value.w, q.value.s);
          if s'.None? then None else Some(Res(a.value.w, s'.value))
    case Update(op, p, x) =>
      var a := Eval(env, x, s);
      if a.None? then None
      else
        var b := Apply(op, Fetch(env, p, a.value.s), a.value.w, a.value.s);
        if b.None? then None else Some(Res(b.value.w, Put(p, b.value.w, b.value.s)))
    case Bump(up, prefix, p) =>
      var before := Fetch(env, p, s);
      var after := Wrap(before as int + (if up then 1 else -1));
      Some(Res(if prefix then after else before, Put(p, after, s)))
    case Invoke(name, args) =>
      var a := EvalAll(env, args, s);
      if a.None? then None else Some(Invoked(env, name, a.value))
  }

  /** Arguments, from left to right. */
  function EvalAll(env: Env, es: Exprs, s: Store): Option<Results> {
    if es.NoExpr? then Some(Results([], s))
    else
      var a := Eval(env, es.head, s);
      if a.None? then None
      else
        var b := EvalAll(env, es.tail, a.value.s);
        if b.None? then None else Some(Results([a.value.w] + b.value.ws, b.value.s))
  }

  // ----- statements -----

  datatype Ending =
    | Timeout(s: Store)
    | Fault
    | Normal(s: Store)
    | Broke(s: Store)
    | Continued(s: Store)
    | Returned(w: Word, s: Store)

  /** Which case value equals the value of a switch, if any. */
  datatype Choice = Choice(at: Option<nat>, s: Store)

  function Count(cases: Cases): nat {
    if cases.NoCase? then 0 else 1 + Count(cases.rest)
  }

  /** The last `default`, if there is one. */
  function DefaultOf(cases: Cases): (d: Option<nat>)
    ensures d.Some? ==> d.value < Count(cases)
  {
    if cases.NoCase? then None
    else
      var later := DefaultOf(cases.rest);
      if later.Some? then Some(later.value + 1) else if cases.value.None? then Some(0) else None
  }

  /** Compares `w` with the case values in order, up to the first that is equal. */
  function Select(env: Env, cases: Cases, w: Word, s: Store): (c: Option<Choice>)
    ensures c.Some? && c.value.at.Some? ==> c.value.at.value < Count(cases)
  {
    if cases.NoCase? then Some(Choice(None, s))
    else
      var v := if cases.value.None? then None else Eval(env, cases.value.value, s);
      if cases.value.Some? && v.None? then None
      else if cases.value.Some? && v.value.w == w then Some(Choice(Some(0), v.value.s))
      else
        var c := Select(env, cases.rest, w, if cases.value.None? then s else v.value.s);
        if c.None? || c.value.at.None? then c else Some(Choice(Some(c.value.at.value + 1), c.value.s))
  }

  function Evaluate(env: Env, e: Expr, s: Store): Ending {
    var a := Eval(env, e, s);
    if a.None? then Fault else Normal(a.value.s)
  }

  /** Where the body of a loop ends up: a `continue` goes on like the end of the body. */
  function AfterBody(e: Ending): Ending {
    if e.Continued? then Normal(e.s) else e
  }

  /** A loop left by `break` ends normally. */
  function AfterLoop(e: Ending): Ending {
    if e.Broke? then Normal(e.s) else e
  }

  /** Executes a statement. `brk` and `cont` say whether a `break` or `continue` has something to leave:
      the compiler emits nothing for one that has not. */
  function Exec(env: Env, st: Stmt, s: Store, brk: bool, cont: bool, fuel: nat): Ending
    decreases fuel, st, 0
  {
    match st
    case ExprStmt(e) => Evaluate(env, e, s)
    case VarDecl(k, init) =>
      if init.None? then Normal(s)
      else
        var a := Eval(env, init.value, s);
        if a.None? then Fault else Normal(Put(Local(k), a.value.w, a.value.s))
    case Block(body) => ExecAll(env, body, s, brk, cont, fuel)
    case If(c, yes, no) =>
      var a := Eval(env, c, s);
      if a.None? then Fault
      else if a.value.w != 0 then Exec(env, yes, a.value.s, brk, cont, fuel)
      else if no.Some? then Exec(env, no.value, a.value.s, brk, cont, fuel)
      else Normal(a.value.s)
    case While(c, body) =>
      var a := Eval(env, c, s);
      if a.None? then Fault
      else if a.value.w == 0 then Normal(a.value.s)
      else
        var b := AfterBody(Exec(env, body, a.value.s, true, true, fuel));
        if !b.Normal? then AfterLoop(b)
        else if fuel == 0 then Timeout(b.s)
        else Exec(env, st, b.s, brk, cont, fuel - 1)
    case DoWhile(body, c) =>
      var b := AfterBody(Exec(env, body, s, true, true, fuel));
      if !b.Normal? then AfterLoop(b)
      else
        var a := Eval(env, c, b.s);
        if a.None? then Fault
        else if a.value.w == 0 then Normal(a.value.s)
        else if fuel == 0 then Timeout(a.value.s)
        else Exec(env, st, a.value.s, brk, cont, fuel - 1)
    case For(start, test, step, body) =>
      var i := if start.Some? then Exec(env, start.value, s, brk, cont, fuel) else Normal(s);
      if !i.Normal? then i else Loop(env, test, step, body, i.s, fuel)
    case Switch(e, cases) =>
      var a := Eval(env, e, s);
      if a.None? then Fault
      else
        var c := Select(env, cases, a.value.w, a.value.s);
        if c.None? then Fault
        else
          var at := if c.value.at.Some? then c.value.at else DefaultOf(cases);
          if at.None? then Normal(c.value.s) else AfterLoop(ExecFrom(env, cases, at.value, c.value.s, cont, fuel))
    case Break => if brk then Broke(s) else Normal(s)
    case Continue => if cont then Continued(s) else Normal(s)
    case Return(v) =>
      if v.None? then Returned(0, s)
      else
        var a := Eval(env, v.value, s);
        if a.None? then Fault else Returned(a.value.w, a.value.s)
  }

  function ExecAll(env: Env, ss: Stmts, s: Store, brk: bool, cont: bool, fuel: nat): Ending
    decreases fuel, ss, 0
  {
    if ss.Nil? then Normal(s)
    else
      var a := Exec(env, ss.head, s, brk, cont, fuel);
      if a.Normal? then ExecAll(env, ss.tail, a.s, brk, cont, fuel) else a
  }

  /** The part of a `for` statement behind its initialisation. */
  function Loop(env: Env, test: Option<Expr>, step: Option<Expr>, body: Stmt, s: Store, fuel: nat): Ending
    decreases fuel, body, 1
  {
    var a := if test.Some? then Eval(env, test.value, s) else Some(Res(1, s));
    if a.None? then Fault
    else if a.value.w == 0 then Normal(a.value.s)
    else
      var b := AfterBody(Exec(env, body, a.value.s, true, true, fuel));
      if !b.Normal? then AfterLoop(b)
      else
        var c := if step.Some? then Evaluate(env, step.value, b.s) else b;
        if !c.Normal? then c
        else if fuel == 0 then Timeout(c.s)
        else Loop(env, test, step, body, c.s, fuel - 1)
  }

  /** The bodies of the cases from the `i`-th on, falling through. */
  function ExecFrom(env: Env, cases: Cases, i: nat, s: Store, cont: bool, fuel: nat): Ending
    requires i <= Count(cases)
    decreases fuel, cases, 0
  {
    if cases.NoCase? then Normal(s)
    else if i > 0 then ExecFrom(env, cases.rest, i - 1, s, cont, fuel)
    else
      var a := ExecAll(env, cases.stmts, s, true, cont, fuel);
      if a.Normal? then ExecFrom(env, cases.rest, 0, a.s, cont, fuel) else a
  }

  /** The value a function body returns: falling off its end returns 0. */
  function AsResult(e: Ending): Ending {
    if e.Normal? then Returned(0, e.s) else e
  }
}
