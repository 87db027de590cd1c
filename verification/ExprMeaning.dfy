/** Lowered expressions compute what the source expression means. */
module ExprMeaning {
  import opened Word64
  import opened IR
  import opened Simulation
  import opened LoweredForm
  import opened Source
  import opened Lowering

  /** The instruction list that contains the lowered code, the outside world and the bytes of the locals. */
  datatype Site = Site(env: Env, code: Code, base: nat)

  /** Marks are unique, and pointers and callees reach no slot but locals: a temporary has no address. */
  ghost predicate Proper(t: Site) {
    && UniqueMarks(t.code)
    && (forall p: Word :: t.env.alias(p).Some? ==> t.env.alias(p).value + t.base >= 0)
    && forall k: int :: t.env.shared(k) ==> k + t.base >= 0
  }

  ghost predicate Placed(t: Site, p: nat, code: Code) {
    p + |code| <= |t.code| && t.code[p..p + |code|] == code
  }

  predicate PlaceInScope(p: Place, base: nat) {
    p.Local? ==> p.k + base >= 0
  }

  predicate InScope(e: Expr, base: nat) {
    match e
    case Lit(_) => true
    case Var(p) => PlaceInScope(p, base)
    case Addr(p) => PlaceInScope(p, base)
    case Deref(x) => InScope(x, base)
    case Neg(x) => InScope(x, base)
    case Inv(x) => InScope(x, base)
    case LogNot(x) => InScope(x, base)
    case Binary(_, l, r) => InScope(l, base) && InScope(r, base)
    case LogAnd(l, r) => InScope(l, base) && InScope(r, base)
    case LogOr(l, r) => InScope(l, base) && InScope(r, base)
    case Conditional(x, l, r) => InScope(x, base) && InScope(l, base) && InScope(r, base)
    case Comma(l, r) => InScope(l, base) && InScope(r, base)
    case Assign(p, x) => PlaceInScope(p, base) && InScope(x, base)
    case AssignVia(x, y) => InScope(x, base) && InScope(y, base)
    case Update(_, p, x) => PlaceInScope(p, base) && InScope(x, base)
    case Bump(_, _, p) => PlaceInScope(p, base)
    case Invoke(_, args) => ArgsInScope(args, base)
  }

  predicate ArgsInScope(es: Exprs, base: nat) {
    es.MoreExprs? ==> InScope(es.head, base) && ArgsInScope(es.tail, base)
  }

  predicate Alike(a: Slots, b: Slots, k: int) {
    (k in a <==> k in b) && (k in a ==> a[k] == b[k])
  }

  /** The machine's data hold the store: the locals are in their slots, whatever lies below them. */
  ghost predicate Matches(base: nat, s: Store, d: Data) {
    d.trace == s.trace && forall k: int :: k + base >= 0 ==> Alike(d.slots, s.vars, k)
  }

  /** Registers below `v` keep their values. */
  ghost predicate Keeps(v: nat, d: Data, d': Data) {
    forall x: nat :: x < v && x in d.regs ==> x in d'.regs && d'.regs[x] == d.regs[x]
  }

  /** `n` steps from `p` lead to `q` with data `d'`. */
  ghost predicate Goes(t: Site, p: nat, d: Data, n: nat, q: nat, d': Data) {
    Steps(t.env, t.code, Run(p, d), n) == Run(q, d')
  }

  ghost predicate Traps(t: Site, p: nat, d: Data, n: nat) {
    Steps(t.env, t.code, Run(p, d), n).Trap?
  }

  ghost predicate Holding(base: nat, v: nat, o: Opnd, d: Data, d': Data, r: Res) {
    Matches(base, r.s, d') && Val(d'.regs, o) == Some(r.w) && Keeps(v, d, d')
  }

  /** Running the fragment from its start yields the result `r`: its value in the fragment's operand, its
      store matched. */
  ghost predicate Yields(t: Site, p: nat, f: Fragment, v: nat, d: Data, r: Option<Res>, n: nat, d': Data) {
    if r.None? then Traps(t, p, d, n)
    else Goes(t, p, d, n, p + |f.code|, d') && Holding(t.base, v, f.o, d, d', r.value)
  }

  // ----- runs -----

  lemma GoesOn(t: Site, p: nat, d: Data, m: nat, q: nat, d1: Data, n: nat)
    requires Goes(t, p, d, m, q, d1)
    ensures Steps(t.env, t.code, Run(p, d), m + n) == Steps(t.env, t.code, Run(q, d1), n)
  {
    StepsAdd(t.env, t.code, Run(p, d), m, n);
  }

  lemma GoesThen(t: Site, p: nat, d: Data, m: nat, q: nat, d1: Data, n: nat, q': nat, d2: Data)
    requires Goes(t, p, d, m, q, d1) && Goes(t, q, d1, n, q', d2)
    ensures Goes(t, p, d, m + n, q', d2)
  {
    GoesOn(t, p, d, m, q, d1, n);
  }

  lemma TrapsThen(t: Site, p: nat, d: Data, m: nat, q: nat, d1: Data, n: nat)
    requires Goes(t, p, d, m, q, d1) && Traps(t, q, d1, n)
    ensures Traps(t, p, d, m + n)
  {
    GoesOn(t, p, d, m, q, d1, n);
  }

  lemma OneStep(t: Site, p: nat, d: Data)
    requires p < |t.code|
    ensures Steps(t.env, t.code, Run(p, d), 1) == Step(t.env, t.code, Run(p, d))
  {
    assert Steps(t.env, t.code, Run(p, d), 1) == Steps(t.env, t.code, Step(t.env, t.code, Run(p, d)), 0);
  }

  lemma Executes(t: Site, p: nat, d: Data, d': Data)
    requires p < |t.code| && IR.Exec(t.env, t.code[p], d) == Next(d')
    ensures Goes(t, p, d, 1, p + 1, d')
  {
    hide IR.Exec;
    OneStep(t, p, d);
  }

  lemma GetsStuck(t: Site, p: nat, d: Data)
    requires p < |t.code| && IR.Exec(t.env, t.code[p], d) == Stuck
    ensures Traps(t, p, d, 1)
  {
    hide IR.Exec;
    OneStep(t, p, d);
  }

  lemma NoSteps(t: Site, p: nat, d: Data)
    ensures Goes(t, p, d, 0, p, d)
  {
  }

  // ----- places in the code -----

  lemma PlacedSplit(t: Site, p: nat, a: Code, b: Code)
    requires Placed(t, p, a + b)
    ensures Placed(t, p, a) && Placed(t, p + |a|, b)
  {
    assert t.code[p..p + |a|] == t.code[p..p + |a + b|][..|a|];
    assert t.code[p + |a|..p + |a| + |b|] == t.code[p..p + |a + b|][|a|..];
  }

  lemma PlacedAt(t: Site, p: nat, code: Code, i: nat)
    requires Placed(t, p, code) && i < |code|
    ensures p + i < |t.code| && t.code[p + i] == code[i]
  {
    assert t.code[p + i] == t.code[p..p + |code|][i];
  }

  lemma MarkAt(t: Site, p: nat, l: Label)
    requires Proper(t) && p < |t.code| && t.code[p] == Mark(l)
    ensures Find(t.code, l) == p
  {
    FindUnique(t.code, l, p);
  }

  // ----- registers and slots -----

  lemma KeepsThen(v: nat, v1: nat, d: Data, d1: Data, d2: Data)
    requires Keeps(v, d, d1) && Keeps(v1, d1, d2) && v <= v1
    ensures Keeps(v, d, d2)
  {
  }

  lemma KeepsVal(v: nat, d: Data, d': Data, o: Opnd)
    requires Keeps(v, d, d') && (o.Reg? ==> o.v < v) && Val(d.regs, o).Some?
    ensures Val(d'.regs, o) == Val(d.regs, o)
  {
  }

  lemma SetReg(base: nat, s: Store, v: nat, d: Data, d1: Data, r: nat, w: Word)
    requires Matches(base, s, d1) && Keeps(v, d, d1) && v <= r
    ensures Matches(base, s, d1.(regs := d1.regs[r := w])) && Keeps(v, d, d1.(regs := d1.regs[r := w]))
    ensures Val(d1.regs[r := w], Reg(r)) == Some(w)
    ensures Keeps(r, d1, d1.(regs := d1.regs[r := w]))
  {
  }

  /** Reading a place. */
  lemma Fetches(t: Site, p: nat, d: Data, s: Store, pl: Place, r: nat)
    requires p < |t.code| && t.code[p] == Fetching(pl, r) && Matches(t.base, s, d) && PlaceInScope(pl, t.base)
    ensures Goes(t, p, d, 1, p + 1, d.(regs := d.regs[r := Fetch(t.env, pl, s)]))
  {
    if pl.Local? { assert Alike(d.slots, s.vars, pl.k); }
    Executes(t, p, d, d.(regs := d.regs[r := Fetch(t.env, pl, s)]));
  }

  /** The data behind a write to a place. */
  function PutData(pl: Place, w: Word, d: Data): Data {
    match pl
    case Local(k) => d.(slots := d.slots[k := w])
    case Global(g) => d.(trace := d.trace + [GlobalStored(g, 8, w)])
  }

  lemma Stores(t: Site, p: nat, d: Data, s: Store, pl: Place, o: Opnd, w: Word)
    requires p < |t.code| && t.code[p] == Putting(pl, o) && Matches(t.base, s, d) && Val(d.regs, o) == Some(w)
    ensures Goes(t, p, d, 1, p + 1, PutData(pl, w, d))
    ensures Matches(t.base, Source.Put(pl, w, s), PutData(pl, w, d)) && PutData(pl, w, d).regs == d.regs
  {
    var d', s' := PutData(pl, w, d), Source.Put(pl, w, s);
    Executes(t, p, d, d');
    forall k: int | k + t.base >= 0 ensures Alike(d'.slots, s'.vars, k) {
      assert Alike(d.slots, s.vars, k);
    }
  }

  lemma SameRegs(v: nat, d: Data, d1: Data, d2: Data)
    requires Keeps(v, d, d1) && d2.regs == d1.regs
    ensures Keeps(v, d, d2)
  {
  }

  // ----- building blocks -----

  /** One more instruction that defines the next register. */
  lemma ThenYields(t: Site, p: nat, a: Fragment, i: Inst, v: nat, d: Data, r: Res, n: nat, d1: Data, w: Word)
    requires Yields(t, p, a, v, d, Some(r), n, d1) && v <= a.c.vreg
    requires Placed(t, p, a.code + [i])
    requires IR.Exec(t.env, i, d1) == Next(d1.(regs := d1.regs[a.c.vreg := w]))
    ensures Yields(t, p, Then(a, i), v, d, Some(Res(w, r.s)), n + 1, d1.(regs := d1.regs[a.c.vreg := w]))
  {
    hide IR.Exec, Placed, Goes, Matches, Keeps;
    var d2 := d1.(regs := d1.regs[a.c.vreg := w]);
    PlacedAt(t, p, a.code + [i], |a.code|);
    Executes(t, p + |a.code|, d1, d2);
    GoesThen(t, p, d, n, p + |a.code|, d1, 1, p + |a.code| + 1, d2);
    SetReg(t.base, r.s, v, d, d1, a.c.vreg, w);
  }

  lemma LitRuns(t: Site, p: nat, w: Word, c: Counters, d: Data, s: Store) returns (n: nat, d': Data)
    requires Proper(t) && Placed(t, p, [Const(c.vreg, w)]) && Matches(t.base, s, d)
    ensures Yields(t, p, Fragment([Const(c.vreg, w)], Reg(c.vreg), NextReg(c)), c.vreg, d, Some(Res(w, s)), n, d')
  {
    n, d' := 1, d.(regs := d.regs[c.vreg := w]);
    PlacedAt(t, p, [Const(c.vreg, w)], 0);
    Executes(t, p, d, d');
    SetReg(t.base, s, c.vreg, d, d, c.vreg, w);
  }

  lemma VarRuns(t: Site, p: nat, pl: Place, c: Counters, d: Data, s: Store) returns (n: nat, d': Data)
    requires Proper(t) && Placed(t, p, [Fetching(pl, c.vreg)]) && Matches(t.base, s, d) && PlaceInScope(pl, t.base)
    ensures Yields(t, p, Fragment([Fetching(pl, c.vreg)], Reg(c.vreg), NextReg(c)), c.vreg, d,
                   Some(Res(Fetch(t.env, pl, s), s)), n, d')
  {
    var w := Fetch(t.env, pl, s);
    n, d' := 1, d.(regs := d.regs[c.vreg := w]);
    PlacedAt(t, p, [Fetching(pl, c.vreg)], 0);
    Fetches(t, p, d, s, pl, c.vreg);
    SetReg(t.base, s, c.vreg, d, d, c.vreg, w);
  }

  lemma AddrRuns(t: Site, p: nat, pl: Place, c: Counters, d: Data, s: Store) returns (n: nat, d': Data)
    requires Proper(t) && Placed(t, p, [Addressing(pl, c.vreg)]) && Matches(t.base, s, d)
    ensures Yields(t, p, Fragment([Addressing(pl, c.vreg)], Reg(c.vreg), NextReg(c)), c.vreg, d,
                   Some(Res(AddressOf(t.env, pl), s)), n, d')
  {
    var w := AddressOf(t.env, pl);
    n, d' := 1, d.(regs := d.regs[c.vreg := w]);
    PlacedAt(t, p, [Addressing(pl, c.vreg)], 0);
    Executes(t, p, d, d');
    SetReg(t.base, s, c.vreg, d, d, c.vreg, w);
  }

  /** A trap in the first part is a trap of the whole. */
  lemma TrapsFirst(t: Site, p: nat, a: Fragment, f: Fragment, v: nat, v': nat, d: Data, n: nat, d1: Data, d2: Data)
    requires Yields(t, p, a, v, d, None, n, d1)
    ensures Yields(t, p, f, v', d, None, n, d2)
  {
  }

  // ----- operators -----

  function EvalOperation(env: Env, op: BinOp, l: Expr, r: Expr, s: Store): Option<Res> {
    var a := Eval(env, l, s);
    if a.None? then None
    else
      var b := Eval(env, r, a.value.s);
      if b.None? then None else Apply(op, a.value.w, b.value.w, b.value.s)
  }

  lemma MinusNegative(a: Word, b: Word)
    ensures Wrap(a as int - Wrap(-(b as int)) as int) == Wrap(a as int + b as int)
  {
    WrapCongruent(a as int + b as int, a as int - Wrap(-(b as int)) as int, (Wrap(-(b as int)) as int + b) / TWO64);
  }

  lemma EvalNeg(env: Env, x: Expr, s: Store)
    ensures var a := Eval(env, x, s);
            Eval(env, Neg(x), s) == if a.None? then None else Some(Res(Wrap(-(a.value.w as int)), a.value.s))
  {
    hide Wrap, Apply, Fetch, Put, Invoked, EvalAll;
  }

  /** `a - -b` is `a + b`. */
  lemma SubtractNegated(env: Env, l: Expr, x: Expr, s: Store)
    ensures EvalOperation(env, Sub, l, Neg(x), s) == EvalOperation(env, Add, l, x, s)
  {
    hide Wrap, Eval, Apply;
    var a := Eval(env, l, s);
    if a.Some? {
      EvalNeg(env, x, a.value.s);
      var b := Eval(env, x, a.value.s);
      if b.Some? {
        MinusNegative(a.value.w, b.value.w);
        ApplyStore(Add, a.value.w, b.value.w, b.value.s);
        ApplyStore(Sub, a.value.w, Wrap(-(b.value.w as int)), b.value.s);
      }
    }
  }

  lemma NegatedTwice(w: Word)
    ensures Wrap(-(Wrap(-(w as int)) as int)) == w
  {
    WrapCongruent(-(Wrap(-(w as int)) as int), w, (-(Wrap(-(w as int)) as int) - w) / TWO64);
  }

  lemma InvertedTwice(w: Word)
    ensures Wrap(-(Wrap(-(w as int) - 1) as int) - 1) == w
  {
    WrapCongruent(-(Wrap(-(w as int) - 1) as int) - 1, w, (-(Wrap(-(w as int) - 1) as int) - 1 - w) / TWO64);
  }

  lemma DoubleNegation(env: Env, x: Expr, s: Store)
    ensures Eval(env, Neg(Neg(x)), s) == Eval(env, x, s)
    ensures Eval(env, Inv(Inv(x)), s) == Eval(env, x, s)
  {
    hide Wrap;
    var a := Eval(env, x, s);
    if a.Some? {
      NegatedTwice(a.value.w);
      InvertedTwice(a.value.w);
    }
  }

  lemma {:induction false} ExprRuns(t: Site, p: nat, e: Expr, c: Counters, d: Data, s: Store) returns (n: nat, d': Data)
    requires Proper(t) && Placed(t, p, LowerExpr(e, c).code) && InScope(e, t.base)
    requires Matches(t.base, s, d) && c.stack >= t.base
    ensures Yields(t, p, LowerExpr(e, c), c.vreg, d, Eval(t.env, e, s), n, d')
    decreases e, 1
  {
    hide Proper, Placed, Matches, Yields;
    match e
    case Lit(w) => n, d' := LitRuns(t, p, w, c, d, s);
    case Var(pl) => n, d' := VarRuns(t, p, pl, c, d, s);
    case Addr(pl) => n, d' := AddrRuns(t, p, pl, c, d, s);
    case Deref(_) => n, d' := UnaryRuns(t, p, e, c, d, s);
    case LogNot(_) => n, d' := UnaryRuns(t, p, e, c, d, s);
    case Neg(x) =>
      if x.Neg? {
        n, d' := ExprRuns(t, p, x.e, c, d, s);
        DoubleNegation(t.env, x.e, s);
      } else {
        n, d' := UnaryRuns(t, p, e, c, d, s);
      }
    case Inv(x) =>
      if x.Inv? {
        n, d' := ExprRuns(t, p, x.e, c, d, s);
        DoubleNegation(t.env, x.e, s);
      } else {
        n, d' := UnaryRuns(t, p, e, c, d, s);
      }
    case Binary(op, l, r) =>
      if op.Sub? && r.Neg? {
        n, d' := OperationRuns(t, p, e, Add, l, r.e, c, d, s);
        SubtractNegated(t.env, l, r.e, s);
      } else {
        n, d' := OperationRuns(t, p, e, op, l, r, c, d, s);
      }
    case LogAnd(l, r) => n, d' := ShortCircuitRuns(t, p, e, true, l, r, c, d, s);
    case LogOr(l, r) => n, d' := ShortCircuitRuns(t, p, e, false, l, r, c, d, s);
    case Conditional(_, _, _) => n, d' := ConditionalRuns(t, p, e, c, d, s);
    case Comma(_, _) => n, d' := CommaRuns(t, p, e, c, d, s);
    case Assign(_, _) => n, d' := AssignRuns(t, p, e, c, d, s);
    case AssignVia(_, _) => n, d' := AssignViaRuns(t, p, e, c, d, s);
    case Update(_, _, _) => n, d' := UpdateRuns(t, p, e, c, d, s);
    case Bump(_, _, _) => n, d' := BumpRuns(t, p, e, c, d, s);
    case Invoke(_, _) => n, d' := InvokeRuns(t, p, e, c, d, s);
  }

  predicate IsUnary(e: Expr) {
    e.Deref? || e.LogNot? || e.Neg? || e.Inv?
  }

  /** The last instruction of a unary operator, and what it computes from its operand. */
  function UnaryInst(e: Expr, r: nat, o: Opnd): Inst
    requires IsUnary(e)
  {
    if e.Deref? then Load(r, o, 0, 8, false)
    else if e.LogNot? then Bin(CmpEq, r, o, Imm(0))
    else if e.Neg? then Bin(Sub, r, Imm(0), o) else Bin(Xor, r, o, Imm(-1))
  }

  function UnaryValue(env: Env, e: Expr, a: Res): Option<Word>
    requires IsUnary(e)
  {
    if e.Deref? then ReadVia(env, a.w, a.s)
    else if e.LogNot? then Some(Truth(a.w == 0))
    else if e.Neg? then Some(Wrap(-(a.w as int))) else Some(Wrap(-(a.w as int) - 1))
  }

  /** A pointer reads the same from the slots as from the locals. */
  lemma LoadAlike(t: Site, s: Store, d: Data, a: Word)
    requires Proper(t) && Matches(t.base, s, d)
    ensures LoadVia(t.env, AsData(s), a, 8, false) == LoadVia(t.env, d, a, 8, false)
  {
    var k := t.env.alias(a);
    if k.Some? { assert Alike(d.slots, s.vars, k.value); }
  }

  lemma UnaryExec(t: Site, e: Expr, o: Opnd, r: nat, d: Data, a: Res)
    requires IsUnary(e) && Proper(t) && Val(d.regs, o) == Some(a.w) && Matches(t.base, a.s, d)
    ensures var w := UnaryValue(t.env, e, a);
            IR.Exec(t.env, UnaryInst(e, r, o), d)
            == if w.Some? then Next(d.(regs := d.regs[r := w.value])) else Stuck
  {
    hide *;
    LoadAlike(t, a.s, d, a.w);
    WordWraps(a.w);
    UnaryCase(t.env, e, o, r, a);
    if e.Deref? {
      DerefExec(t, o, r, d, a);
    } else {
      UnaryAlu(a.w);
      OperatorExec(t.env, r, o, a.w, d);
    }
  }

  lemma WordWraps(w: Word)
    ensures Wrap(w as int + 0) == w
  {
  }

  lemma UnaryAlu(w: Word)
    ensures Alu(CmpEq, w, 0) == Some(Truth(w == 0)) && Alu(Sub, 0, w) == Some(Wrap(-(w as int)))
    ensures Alu(Xor, w, -1) == Some(Wrap(-(w as int) - 1))
  {
    Complement(w);
    hide Bitwise, Wrap;
  }

  lemma OperatorExec(env: Env, r: nat, o: Opnd, w: Word, d: Data)
    requires Val(d.regs, o) == Some(w)
    requires Alu(CmpEq, w, 0).Some? && Alu(Sub, 0, w).Some? && Alu(Xor, w, -1).Some?
    ensures IR.Exec(env, Bin(CmpEq, r, o, Imm(0)), d) == Next(d.(regs := d.regs[r := Alu(CmpEq, w, 0).value]))
    ensures IR.Exec(env, Bin(Sub, r, Imm(0), o), d) == Next(d.(regs := d.regs[r := Alu(Sub, 0, w).value]))
    ensures IR.Exec(env, Bin(Xor, r, o, Imm(-1)), d) == Next(d.(regs := d.regs[r := Alu(Xor, w, -1).value]))
  {
    hide Alu;
  }

  lemma DerefExec(t: Site, o: Opnd, r: nat, d: Data, a: Res)
    requires Val(d.regs, o) == Some(a.w) && Wrap(a.w as int + 0) == a.w
    requires LoadVia(t.env, AsData(a.s), a.w, 8, false) == LoadVia(t.env, d, a.w, 8, false)
    ensures var w := ReadVia(t.env, a.w, a.s);
            IR.Exec(t.env, Load(r, o, 0, 8, false), d)
            == if w.Some? then Next(d.(regs := d.regs[r := w.value])) else Stuck
  {
    hide LoadVia, Accessible;
  }

  lemma UnaryCase(env: Env, e: Expr, o: Opnd, r: nat, a: Res)
    requires IsUnary(e)
    ensures e.Deref? || e.LogNot? || e.Neg? || e.Inv?
    ensures e.Deref? ==>
              UnaryInst(e, r, o) == Load(r, o, 0, 8, false) && UnaryValue(env, e, a) == ReadVia(env, a.w, a.s)
    ensures e.LogNot? ==>
              UnaryInst(e, r, o) == Bin(CmpEq, r, o, Imm(0)) && UnaryValue(env, e, a) == Some(Truth(a.w == 0))
    ensures e.Neg? ==>
              UnaryInst(e, r, o) == Bin(Sub, r, Imm(0), o) && UnaryValue(env, e, a) == Some(Wrap(-(a.w as int)))
    ensures e.Inv? ==>
              UnaryInst(e, r, o) == Bin(Xor, r, o, Imm(-1)) && UnaryValue(env, e, a) == Some(Wrap(-(a.w as int) - 1))
  {
    hide Wrap, ReadVia;
  }

  /** Operators whose code is that of their operand and one more instruction. */
  predicate UsesUnary(e: Expr) {
    e.Deref? || e.LogNot? || (e.Neg? && !e.e.Neg?) || (e.Inv? && !e.e.Inv?)
  }

  function UnaryResult(env: Env, e: Expr, a: Option<Res>): Option<Res>
    requires IsUnary(e)
  {
    if a.None? then None
    else
      var w := UnaryValue(env, e, a.value);
      if w.None? then None else Some(Res(w.value, a.value.s))
  }

  lemma UnaryIs(env: Env, e: Expr, c: Counters, s: Store)
    requires UsesUnary(e)
    ensures var x := if e.Deref? then e.pointer else e.e;
            var a := LowerExpr(x, c);
            && LowerExpr(e, c) == Then(a, UnaryInst(e, a.c.vreg, a.o))
            && Eval(env, e, s) == UnaryResult(env, e, Eval(env, x, s))
  {
    hide ReadVia;
  }

  lemma UnaryRuns(t: Site, p: nat, e: Expr, c: Counters, d: Data, s: Store) returns (n: nat, d': Data)
    requires UsesUnary(e) && Proper(t) && Placed(t, p, LowerExpr(e, c).code) && InScope(e, t.base)
    requires Matches(t.base, s, d) && c.stack >= t.base
    ensures Yields(t, p, LowerExpr(e, c), c.vreg, d, Eval(t.env, e, s), n, d')
    decreases e, 0
  {
    hide *;
    UnaryIs(t.env, e, c, s);
    UnaryScope(e, t.base);
    var x := if e.Deref? then e.pointer else e.e;
    var a := LowerExpr(x, c);
    var i := UnaryInst(e, a.c.vreg, a.o);
    var v := Eval(t.env, x, s);
    ThenPlaced(t, p, a, i);
    n, d' := ExprRuns(t, p, x, c, d, s);
    YieldsIs(t, p, a, c.vreg, d, v, n, d');
    if v.Some? {
      UnaryExec(t, e, a.o, a.c.vreg, d', v.value);
      UnaryResultIs(t.env, e, v.value);
      var w := UnaryValue(t.env, e, v.value);
      PlacedAt(t, p, a.code + [i], |a.code|);
      if w.None? {
        GetsStuck(t, p + |a.code|, d');
        TrapsThen(t, p, d, n, p + |a.code|, d', 1);
        n := n + 1;
        YieldsIs(t, p, LowerExpr(e, c), c.vreg, d, None, n, d');
      } else {
        ThenYields(t, p, a, i, c.vreg, d, v.value, n, d', w.value);
        n, d' := n + 1, d'.(regs := d'.regs[a.c.vreg := w.value]);
      }
    } else {
      NothingFrom(t.env, e);
      YieldsIs(t, p, LowerExpr(e, c), c.vreg, d, None, n, d');
    }
  }

  lemma UnaryScope(e: Expr, base: nat)
    requires UsesUnary(e) && InScope(e, base)
    ensures InScope(if e.Deref? then e.pointer else e.e, base) && IsUnary(e)
  {
  }

  lemma UnaryResultIs(env: Env, e: Expr, a: Res)
    requires IsUnary(e)
    ensures var w := UnaryValue(env, e, a);
            UnaryResult(env, e, Some(a)) == if w.None? then None else Some(Res(w.value, a.s))
  {
    hide UnaryValue;
  }

  lemma NothingFrom(env: Env, e: Expr)
    requires IsUnary(e)
    ensures UnaryResult(env, e, None) == None
  {
  }

  lemma ThenPlaced(t: Site, p: nat, a: Fragment, i: Inst)
    requires Placed(t, p, Then(a, i).code)
    ensures Placed(t, p, a.code) && Placed(t, p, a.code + [i])
  {
    PlacedSplit(t, p, a.code, [i]);
  }

  /** Both operands have been computed, left first. */
  ghost predicate PairYields(t: Site, p: nat, a: Fragment, b: Fragment, v: nat, d: Data, x: Option<Res>, y: Option<Res>,
                             n: nat, d': Data) {
    if x.None? || y.None? then Traps(t, p, d, n)
    else
      && Goes(t, p, d, n, p + |a.code| + |b.code|, d')
      && Matches(t.base, y.value.s, d') && Keeps(v, d, d')
      && Val(d'.regs, a.o) == Some(x.value.w) && Val(d'.regs, b.o) == Some(y.value.w)
  }

  function EvalSecond(env: Env, x: Option<Res>, r: Expr): Option<Res> {
    if x.None? then None else Eval(env, r, x.value.s)
  }

  lemma PairRuns(t: Site, p: nat, e: Expr, l: Expr, r: Expr, c: Counters, d: Data, s: Store) returns (n: nat, d': Data)
    requires l < e && r < e
    requires var a := LowerExpr(l, c); Proper(t) && Placed(t, p, a.code + LowerExpr(r, a.c).code)
    requires InScope(l, t.base) && InScope(r, t.base) && Matches(t.base, s, d) && c.stack >= t.base
    ensures var a := LowerExpr(l, c);
            var x := Eval(t.env, l, s);
            PairYields(t, p, a, LowerExpr(r, a.c), c.vreg, d, x, EvalSecond(t.env, x, r), n, d')
    decreases e, 0, 1
  {
    var a := LowerExpr(l, c);
    var b := LowerExpr(r, a.c);
    var x := Eval(t.env, l, s);
    hide LowerExpr, InScope, Eval, Placed, Goes, Keeps, Traps, Proper, Matches;
    PlacedSplit(t, p, a.code, b.code);
    var n1, d1 := ExprRuns(t, p, l, c, d, s);
    n, d' := n1, d1;
    if x.Some? {
      var n2, d2 := ExprRuns(t, p + |a.code|, r, a.c, d1, x.value.s);
      n, d' := n1 + n2, d2;
      if Eval(t.env, r, x.value.s).None? {
        TrapsThen(t, p, d, n1, p + |a.code|, d1, n2);
      } else {
        GoesThen(t, p, d, n1, p + |a.code|, d1, n2, p + |a.code| + |b.code|, d2);
        KeepsVal(a.c.vreg, d1, d2, a.o);
        KeepsThen(c.vreg, a.c.vreg, d, d1, d2);
      }
    }
  }

  lemma ApplyExec(env: Env, op: BinOp, r: nat, o: Opnd, q: Opnd, d: Data, a: Word, b: Word, s: Store)
    requires Val(d.regs, o) == Some(a) && Val(d.regs, q) == Some(b)
    ensures var w := Apply(op, a, b, s);
            && (w.None? ==> IR.Exec(env, Bin(op, r, o, q), d) == Stuck)
            && (w.Some? ==> IR.Exec(env, Bin(op, r, o, q), d) == Next(d.(regs := d.regs[r := w.value.w]))
                            && w.value.s == s)
  {
    hide Alu;
  }

  lemma OperationRuns(t: Site, p: nat, e: Expr, op: BinOp, l: Expr, r: Expr, c: Counters, d: Data, s: Store)
      returns (n: nat, d': Data)
    requires l < e && r < e
    requires var a := LowerExpr(l, c); Proper(t) && Placed(t, p, Operated(op, a, LowerExpr(r, a.c)).code)
    requires InScope(l, t.base) && InScope(r, t.base) && Matches(t.base, s, d) && c.stack >= t.base
    ensures var a := LowerExpr(l, c);
            Yields(t, p, Operated(op, a, LowerExpr(r, a.c)), c.vreg, d, EvalOperation(t.env, op, l, r, s), n, d')
    decreases e, 0, 2
  {
    var a := LowerExpr(l, c);
    var b := LowerExpr(r, a.c);
    var i := Bin(op, b.c.vreg, a.o, b.o);
    var x := Eval(t.env, l, s);
    var y := EvalSecond(t.env, x, r);
    hide LowerExpr, InScope, Eval, Placed, Goes, Keeps, Traps, Proper, Matches, Apply, IR.Exec;
    PlacedSplit(t, p, a.code + b.code, [i]);
    PlacedAt(t, p + |a.code + b.code|, [i], 0);
    n, d' := PairRuns(t, p, e, l, r, c, d, s);
    if x.Some? && y.Some? {
      var q := p + |a.code| + |b.code|;
      ApplyExec(t.env, op, b.c.vreg, a.o, b.o, d', x.value.w, y.value.w, y.value.s);
      var w := Apply(op, x.value.w, y.value.w, y.value.s);
      if w.None? {
        GetsStuck(t, q, d');
        TrapsThen(t, p, d, n, q, d', 1);
        n := n + 1;
      } else {
        var d2 := d'.(regs := d'.regs[b.c.vreg := w.value.w]);
        Executes(t, q, d', d2);
        GoesThen(t, p, d, n, q, d', 1, q + 1, d2);
        SetReg(t.base, y.value.s, c.vreg, d, d', b.c.vreg, w.value.w);
        n, d' := n + 1, d2;
      }
    }
  }

  lemma CommaRuns(t: Site, p: nat, e: Expr, c: Counters, d: Data, s: Store) returns (n: nat, d': Data)
    requires e.Comma? && Proper(t) && Placed(t, p, LowerExpr(e, c).code) && InScope(e, t.base)
    requires Matches(t.base, s, d) && c.stack >= t.base
    ensures Yields(t, p, LowerExpr(e, c), c.vreg, d, Eval(t.env, e, s), n, d')
    decreases e, 0, 2
  {
    hide Placed, Goes, Keeps, Traps, Proper, Matches;
    n, d' := PairRuns(t, p, e, e.l, e.r, c, d, s);
  }

  // ----- assignments -----

  lemma AssignRuns(t: Site, p: nat, e: Expr, c: Counters, d: Data, s: Store) returns (n: nat, d': Data)
    requires e.Assign? && Proper(t) && Placed(t, p, LowerExpr(e, c).code) && InScope(e, t.base)
    requires Matches(t.base, s, d) && c.stack >= t.base
    ensures Yields(t, p, LowerExpr(e, c), c.vreg, d, Eval(t.env, e, s), n, d')
    decreases e, 0
  {
    var a := LowerExpr(e.e, c);
    var i := Putting(e.place, a.o);
    var x := Eval(t.env, e.e, s);
    assert LowerExpr(e, c) == Fragment(a.code + [i], a.o, a.c);
    hide LowerExpr, Placed, Goes, Keeps, Traps, Proper, Matches;
    PlacedSplit(t, p, a.code, [i]);
    PlacedAt(t, p + |a.code|, [i], 0);
    n, d' := ExprRuns(t, p, e.e, c, d, s);
    if x.Some? {
      var q := p + |a.code|;
      var d2 := PutData(e.place, x.value.w, d');
      Stores(t, q, d', x.value.s, e.place, a.o, x.value.w);
      GoesThen(t, p, d, n, q, d', 1, q + 1, d2);
      SameRegs(c.vreg, d, d', d2);
      n, d' := n + 1, d2;
    }
  }

  /** A pointer writes the same to the slots as to the locals. */
  lemma StoreAlike(t: Site, s: Store, d: Data, a: Word, w: Word)
    requires Proper(t) && Matches(t.base, s, d)
    ensures var d', s' := StoreVia(t.env, d, a, 8, w), StoreVia(t.env, AsData(s), a, 8, w);
            Matches(t.base, Source.Store.Store(s'.slots, s'.trace), d') && d'.regs == d.regs
  {
    var d', s' := StoreVia(t.env, d, a, 8, w), StoreVia(t.env, AsData(s), a, 8, w);
    var j := t.env.alias(a);
    if j.Some? { assert Alike(d.slots, s.vars, j.value); }
    forall k: int | k + t.base >= 0 ensures Alike(d'.slots, s'.slots, k) {
      assert Alike(d.slots, s.vars, k);
    }
  }

  lemma StoresVia(t: Site, p: nat, d: Data, s: Store, q: Opnd, o: Opnd, a: Word, w: Word)
    requires Proper(t) && p < |t.code| && t.code[p] == IR.Store(q, 0, o, 8) && Matches(t.base, s, d)
    requires Val(d.regs, q) == Some(a) && Val(d.regs, o) == Some(w)
    ensures var s' := WriteVia(t.env, a, w, s);
            var d' := StoreVia(t.env, d, a, 8, w);
            if s'.None? then Traps(t, p, d, 1)
            else Goes(t, p, d, 1, p + 1, d') && Matches(t.base, s'.value, d') && d'.regs == d.regs
  {
    assert Wrap(a as int + 0) == a;
    StoreAlike(t, s, d, a, w);
    hide StoreVia, Matches, Proper;
    if Accessible(t.env, a) {
      Executes(t, p, d, StoreVia(t.env, d, a, 8, w));
    } else {
      GetsStuck(t, p, d);
    }
  }

  lemma AssignViaIs(t: Site, e: Expr, c: Counters, s: Store)
    requires e.AssignVia? && InScope(e, t.base)
    ensures var a := LowerExpr(e.e, c);
            var b := LowerExpr(e.pointer, a.c);
            var x := Eval(t.env, e.e, s);
            var y := EvalSecond(t.env, x, e.pointer);
            && LowerExpr(e, c) == Fragment(a.code + b.code + [IR.Store(b.o, 0, a.o, 8)], a.o, b.c)
            && InScope(e.e, t.base) && InScope(e.pointer, t.base)
            && (x.None? || y.None? ==> Eval(t.env, e, s) == None)
            && (x.Some? && y.Some? ==>
                  var s' := WriteVia(t.env, y.value.w, x.value.w, y.value.s);
                  Eval(t.env, e, s) == if s'.None? then None else Some(Res(x.value.w, s'.value)))
  {
    hide WriteVia;
  }

  lemma PairYieldsIs(t: Site, p: nat, a: Fragment, b: Fragment, v: nat, d: Data, x: Option<Res>, y: Option<Res>, n: nat,
                     d': Data)
    requires PairYields(t, p, a, b, v, d, x, y, n, d')
    ensures x.None? || y.None? ==> Traps(t, p, d, n)
    ensures x.Some? && y.Some? ==>
              && Goes(t, p, d, n, p + |a.code| + |b.code|, d')
              && Matches(t.base, y.value.s, d') && Keeps(v, d, d')
              && Val(d'.regs, a.o) == Some(x.value.w) && Val(d'.regs, b.o) == Some(y.value.w)
  {
  }

  lemma AssignViaRuns(t: Site, p: nat, e: Expr, c: Counters, d: Data, s: Store) returns (n: nat, d': Data)
    requires e.AssignVia? && Proper(t) && Placed(t, p, LowerExpr(e, c).code) && InScope(e, t.base)
    requires Matches(t.base, s, d) && c.stack >= t.base
    ensures Yields(t, p, LowerExpr(e, c), c.vreg, d, Eval(t.env, e, s), n, d')
    decreases e, 0, 2
  {
    hide *;
    AssignViaIs(t, e, c, s);
    var a := LowerExpr(e.e, c);
    var b := LowerExpr(e.pointer, a.c);
    var x := Eval(t.env, e.e, s);
    var y := EvalSecond(t.env, x, e.pointer);
    PlacedSplit(t, p, a.code + b.code, [IR.Store(b.o, 0, a.o, 8)]);
    PlacedAt(t, p + |a.code + b.code|, [IR.Store(b.o, 0, a.o, 8)], 0);
    n, d' := PairRuns(t, p, e, e.e, e.pointer, c, d, s);
    PairYieldsIs(t, p, a, b, c.vreg, d, x, y, n, d');
    if x.Some? && y.Some? {
      var q := p + |a.code| + |b.code|;
      var d2 := StoreVia(t.env, d', y.value.w, 8, x.value.w);
      StoresVia(t, q, d', y.value.s, b.o, a.o, y.value.w, x.value.w);
      if WriteVia(t.env, y.value.w, x.value.w, y.value.s).None? {
        TrapsThen(t, p, d, n, q, d', 1);
      } else {
        GoesThen(t, p, d, n, q, d', 1, q + 1, d2);
        SameRegs(c.vreg, d, d', d2);
      }
      n, d' := n + 1, d2;
    }
    YieldsIs(t, p, LowerExpr(e, c), c.vreg, d, Eval(t.env, e, s), n, d');
  }

  /** Reading a place, combining it with an operand and writing the result back. */
  lemma CombineRuns(t: Site, p: nat, d: Data, s: Store, pl: Place, op: BinOp, cur: nat, o: Opnd, w: Word)
      returns (n: nat, d': Data)
    requires Placed(t, p, [Fetching(pl, cur), Bin(op, cur + 1, Reg(cur), o), Putting(pl, Reg(cur + 1))])
    requires Matches(t.base, s, d) && PlaceInScope(pl, t.base) && Val(d.regs, o) == Some(w) && (o.Reg? ==> o.v < cur)
    ensures var b := Apply(op, Fetch(t.env, pl, s), w, s);
            if b.None? then Traps(t, p, d, n)
            else
              && Goes(t, p, d, n, p + 3, d') && Matches(t.base, Source.Put(pl, b.value.w, s), d') && Keeps(cur, d, d')
              && Val(d'.regs, Reg(cur)) == Some(Fetch(t.env, pl, s)) && Val(d'.regs, Reg(cur + 1)) == Some(b.value.w)
  {
    var code := [Fetching(pl, cur), Bin(op, cur + 1, Reg(cur), o), Putting(pl, Reg(cur + 1))];
    PlacedAt(t, p, code, 0);
    PlacedAt(t, p, code, 1);
    PlacedAt(t, p, code, 2);
    var old_ := Fetch(t.env, pl, s);
    var d1 := d.(regs := d.regs[cur := old_]);
    Fetches(t, p, d, s, pl, cur);
    KeepsSelf(cur, d);
    SetReg(t.base, s, cur, d, d, cur, old_);
    KeepsVal(cur, d, d1, o);
    ApplyExec(t.env, op, cur + 1, Reg(cur), o, d1, old_, w, s);
    var b := Apply(op, old_, w, s);
    hide Placed, Goes, Traps, Matches, Apply, IR.Exec, Fetch, Source.Put;
    if b.None? {
      GetsStuck(t, p + 1, d1);
      TrapsThen(t, p, d, 1, p + 1, d1, 1);
      n, d' := 2, d;
    } else {
      var d2 := d1.(regs := d1.regs[cur + 1 := b.value.w]);
      Executes(t, p + 1, d1, d2);
      SetReg(t.base, s, cur, d, d1, cur + 1, b.value.w);
      GoesThen(t, p, d, 1, p + 1, d1, 1, p + 2, d2);
      var d3 := PutData(pl, b.value.w, d2);
      Stores(t, p + 2, d2, s, pl, Reg(cur + 1), b.value.w);
      GoesThen(t, p, d, 2, p + 2, d2, 1, p + 3, d3);
      SameRegs(cur, d, d2, d3);
      n, d' := 3, d3;
    }
  }

  lemma KeepsSelf(v: nat, d: Data)
    ensures Keeps(v, d, d)
  {
  }

  lemma UpdateIs(t: Site, e: Expr, c: Counters, s: Store)
    requires e.Update? && InScope(e, t.base)
    ensures var a := LowerExpr(e.e, c);
            var x := Eval(t.env, e.e, s);
            && LowerExpr(e, c) == Fragment(a.code + [Fetching(e.place, a.c.vreg),
                                                     Bin(e.cop, a.c.vreg + 1, Reg(a.c.vreg), a.o),
                                                         Putting(e.place, Reg(a.c.vreg + 1))],
                                           Reg(a.c.vreg + 1), a.c.(vreg := a.c.vreg + 2))
            && InScope(e.e, t.base) && PlaceInScope(e.place, t.base)
            && Eval(t.env, e, s) ==
                 if x.None? then None
                 else
                   var b := Apply(e.cop, Fetch(t.env, e.place, x.value.s), x.value.w, x.value.s);
                   if b.None? then None else Some(Res(b.value.w, Source.Put(e.place, b.value.w, b.value.s)))
  {
    hide Apply, Fetch, Source.Put;
  }

  lemma UpdateRuns(t: Site, p: nat, e: Expr, c: Counters, d: Data, s: Store) returns (n: nat, d': Data)
    requires e.Update? && Proper(t) && Placed(t, p, LowerExpr(e, c).code) && InScope(e, t.base)
    requires Matches(t.base, s, d) && c.stack >= t.base
    ensures Yields(t, p, LowerExpr(e, c), c.vreg, d, Eval(t.env, e, s), n, d')
    decreases e, 0
  {
    hide *;
    UpdateIs(t, e, c, s);
    var a := LowerExpr(e.e, c);
    var x := Eval(t.env, e.e, s);
    var rest := [Fetching(e.place, a.c.vreg), Bin(e.cop, a.c.vreg + 1, Reg(a.c.vreg), a.o),
                 Putting(e.place, Reg(a.c.vreg + 1))];
    PlacedSplit(t, p, a.code, rest);
    n, d' := ExprRuns(t, p, e.e, c, d, s);
    YieldsIs(t, p, a, c.vreg, d, x, n, d');
    if x.Some? {
      var q := p + |a.code|;
      var m, d2 := CombineRuns(t, q, d', x.value.s, e.place, e.cop, a.c.vreg, a.o, x.value.w);
      var b := Apply(e.cop, Fetch(t.env, e.place, x.value.s), x.value.w, x.value.s);
      ApplyStore(e.cop, Fetch(t.env, e.place, x.value.s), x.value.w, x.value.s);
      if b.None? {
        TrapsThen(t, p, d, n, q, d', m);
      } else {
        GoesThen(t, p, d, n, q, d', m, q + 3, d2);
        KeepsThen(c.vreg, a.c.vreg, d, d', d2);
      }
      n, d' := n + m, d2;
    }
    YieldsIs(t, p, LowerExpr(e, c), c.vreg, d, Eval(t.env, e, s), n, d');
  }

  lemma ApplyStore(op: BinOp, a: Word, b: Word, s: Store)
    ensures Apply(op, a, b, s).Some? ==> Apply(op, a, b, s).value.s == s
    ensures op.Add? || op.Sub? ==> Apply(op, a, b, s)
                                   == Some(Res(Wrap(a as int + (if op.Add? then b as int else -(b as int))), s))
  {
    hide Bitwise, ShiftLeft, ShiftRight, TruncDiv, TruncMod;
  }

  lemma BumpRuns(t: Site, p: nat, e: Expr, c: Counters, d: Data, s: Store) returns (n: nat, d': Data)
    requires e.Bump? && Proper(t) && Placed(t, p, LowerExpr(e, c).code) && InScope(e, t.base)
    requires Matches(t.base, s, d) && c.stack >= t.base
    ensures Yields(t, p, LowerExpr(e, c), c.vreg, d, Eval(t.env, e, s), n, d')
    decreases e, 0
  {
    hide *;
    BumpIs(t, e, c, d, s);
    var op := if e.up then Add else Sub;
    n, d' := CombineRuns(t, p, d, s, e.place, op, c.vreg, Imm(1), 1);
    ApplyStore(op, Fetch(t.env, e.place, s), 1, s);
    YieldsIs(t, p, LowerExpr(e, c), c.vreg, d, Eval(t.env, e, s), n, d');
  }

  lemma BumpIs(t: Site, e: Expr, c: Counters, d: Data, s: Store)
    requires e.Bump? && InScope(e, t.base)
    ensures var op := if e.up then Add else Sub;
            var before := Fetch(t.env, e.place, s);
            var after := Wrap(before as int + (if e.up then 1 else -1));
            && PlaceInScope(e.place, t.base) && Val(d.regs, Imm(1)) == Some(1)
            && LowerExpr(e, c).code
               == [Fetching(e.place, c.vreg), Bin(op, c.vreg + 1, Reg(c.vreg), Imm(1)),
                   Putting(e.place, Reg(c.vreg + 1))]
            && LowerExpr(e, c).o == Reg(if e.prefix then c.vreg + 1 else c.vreg)
            && Eval(t.env, e, s) == Some(Res(if e.prefix then after else before, Put(e.place, after, s)))
  {
    hide Wrap, Fetch, Put;
  }

  // ----- control inside expressions -----

  lemma Branches(t: Site, p: nat, d: Data, nonzero: bool, o: Opnd, l: Label, m: nat, w: Word)
    requires Proper(t) && p < |t.code| && t.code[p] == JmpIf(nonzero, o, l)
    requires m < |t.code| && t.code[m] == Mark(l) && Val(d.regs, o) == Some(w)
    ensures Goes(t, p, d, 1, if (w != 0) == nonzero then m + 1 else p + 1, d)
  {
    MarkAt(t, m, l);
    OneStep(t, p, d);
  }

  lemma Jumps(t: Site, p: nat, d: Data, l: Label, m: nat)
    requires Proper(t) && p < |t.code| && t.code[p] == Jmp(l) && m < |t.code| && t.code[m] == Mark(l)
    ensures Goes(t, p, d, 1, m + 1, d)
  {
    MarkAt(t, m, l);
    OneStep(t, p, d);
  }

  lemma Passes(t: Site, p: nat, d: Data)
    requires p < |t.code| && t.code[p].Mark?
    ensures Goes(t, p, d, 1, p + 1, d)
  {
    Executes(t, p, d, d);
  }

  lemma Sets(t: Site, p: nat, d: Data, r: nat, w: Word)
    requires p < |t.code| && t.code[p] == Const(r, w)
    ensures Goes(t, p, d, 1, p + 1, d.(regs := d.regs[r := w]))
  {
    Executes(t, p, d, d.(regs := d.regs[r := w]));
  }

  function DecidingTail(r: nat, l: Label, early: Word): Code
    requires early == 0 || early == 1
  {
    [Const(r, 1 - early), Jmp(l + 1), Mark(l), Const(r, early), Mark(l + 1)]
  }

  /** Both ways through the last five instructions of `&&` and `||`. */
  lemma TailRuns(t: Site, p: nat, d: Data, r: nat, l: Label, early: Word)
    requires Proper(t) && (early == 0 || early == 1) && Placed(t, p, DecidingTail(r, l, early))
    ensures Goes(t, p, d, 2, p + 5, d.(regs := d.regs[r := 1 - early]))
    ensures Goes(t, p + 3, d, 2, p + 5, d.(regs := d.regs[r := early]))
    ensures p + 2 < |t.code| && t.code[p + 2] == Mark(l)
  {
    var code := DecidingTail(r, l, early);
    PlacedAt(t, p, code, 0);
    PlacedAt(t, p, code, 1);
    PlacedAt(t, p, code, 2);
    PlacedAt(t, p, code, 3);
    PlacedAt(t, p, code, 4);
    hide Placed, Proper, Goes;
    var d1, d2 := d.(regs := d.regs[r := 1 - early]), d.(regs := d.regs[r := early]);
    Sets(t, p, d, r, 1 - early);
    Jumps(t, p + 1, d1, l + 1, p + 4);
    GoesThen(t, p, d, 1, p + 1, d1, 1, p + 5, d1);
    Sets(t, p + 3, d, r, early);
    Passes(t, p + 4, d2);
    GoesThen(t, p + 3, d, 1, p + 4, d2, 1, p + 5, d2);
  }

  function EvalShort(env: Env, conjunction: bool, l: Expr, r: Expr, s: Store): Option<Res> {
    var a := Eval(env, l, s);
    if a.None? then None
    else if (a.value.w != 0) != conjunction then Some(Res(if conjunction then 0 else 1, a.value.s))
    else
      var b := Eval(env, r, a.value.s);
      if b.None? then None else Some(Res(Truth(b.value.w != 0), b.value.s))
  }

  /** The end of a short-circuit: after `n` steps at `q` with the result decided. */
  lemma DecidedYields(t: Site, p: nat, f: Fragment, v: nat, d: Data, n: nat, q: nat, d1: Data, r: Res)
    requires Goes(t, p, d, n, q, d1) && Matches(t.base, r.s, d1) && Keeps(v + 1, d, d1) && f.o == Reg(v)
    requires Goes(t, q, d1, 2, p + |f.code|, d1.(regs := d1.regs[v := r.w]))
    ensures Yields(t, p, f, v, d, Some(r), n + 2, d1.(regs := d1.regs[v := r.w]))
  {
    GoesThen(t, p, d, n, q, d1, 2, p + |f.code|, d1.(regs := d1.regs[v := r.w]));
    hide Goes;
  }

  lemma ShortCircuitParts(t: Site, p: nat, conjunction: bool, c: Counters, a: Fragment, b: Fragment)
    requires Placed(t, p, Decided(conjunction, c, a, b).code)
    ensures var q := p + |a.code|;
            var m := q + 1 + |b.code|;
            && Placed(t, p, a.code) && q < |t.code| && t.code[q] == JmpIf(!conjunction, a.o, c.lab)
            && Placed(t, q + 1, b.code) && m < |t.code| && t.code[m] == JmpIf(!conjunction, b.o, c.lab)
            && Placed(t, m + 1, DecidingTail(c.vreg, c.lab, if conjunction then 0 else 1))
            && p + |Decided(conjunction, c, a, b).code| == m + 6
  {
    hide *;
    var tail := DecidingTail(c.vreg, c.lab, if conjunction then 0 else 1);
    var j1, j2 := [JmpIf(!conjunction, a.o, c.lab)], [JmpIf(!conjunction, b.o, c.lab)];
    DecidedCode(conjunction, c, a, b);
    PlacedSplit(t, p, a.code + j1 + b.code + j2, tail);
    PlacedSplit(t, p, a.code + j1 + b.code, j2);
    PlacedSplit(t, p, a.code + j1, b.code);
    PlacedSplit(t, p, a.code, j1);
    PlacedAt(t, p + |a.code|, j1, 0);
    PlacedAt(t, p + |a.code + j1 + b.code|, j2, 0);
    TailLength(c.vreg, c.lab, if conjunction then 0 else 1);
  }

  lemma DecidedCode(conjunction: bool, c: Counters, a: Fragment, b: Fragment)
    ensures Decided(conjunction, c, a, b).code
         == a.code + [JmpIf(!conjunction, a.o, c.lab)] + b.code + [JmpIf(!conjunction, b.o, c.lab)]
            + DecidingTail(c.vreg, c.lab, if conjunction then 0 else 1)
  {
  }

  lemma TailLength(r: nat, l: Label, early: Word)
    requires early == 0 || early == 1
    ensures |DecidingTail(r, l, early)| == 5
  {
  }

  /** The second operand has been computed at `m`, where `d2` holds its value. */
  lemma SecondDecides(t: Site, p: nat, f: Fragment, conjunction: bool, o: Opnd, r: nat, l: Label, d: Data, n: nat,
                      m: nat, d2: Data, y: Res)
      returns (n': nat, d': Data)
    requires Proper(t) && m < |t.code| && t.code[m] == JmpIf(!conjunction, o, l)
    requires Placed(t, m + 1, DecidingTail(r, l, if conjunction then 0 else 1)) && p + |f.code| == m + 6
        && f.o == Reg(r)
    requires Goes(t, p, d, n, m, d2) && Matches(t.base, y.s, d2) && Keeps(r + 1, d, d2) && Val(d2.regs, o) == Some(y.w)
    ensures Yields(t, p, f, r, d, Some(Res(Truth(y.w != 0), y.s)), n', d')
  {
    hide Goes, Keeps, Proper, Matches, DecidingTail, Placed, Yields;
    TailRuns(t, m + 1, d2, r, l, if conjunction then 0 else 1);
    Branches(t, m, d2, !conjunction, o, l, m + 3, y.w);
    var next := if (y.w != 0) == !conjunction then m + 4 else m + 1;
    GoesThen(t, p, d, n, m, d2, 1, next, d2);
    DecidedYields(t, p, f, r, d, n + 1, next, d2, Res(Truth(y.w != 0), y.s));
    n', d' := n + 3, d2.(regs := d2.regs[r := Truth(y.w != 0)]);
  }

  lemma ShortCircuitRuns(t: Site, p: nat, e: Expr, conjunction: bool, l: Expr, r: Expr, c: Counters, d: Data, s: Store)
      returns (n: nat, d': Data)
    requires l < e && r < e
    requires var a := LowerExpr(l, Deciding(c));
            Proper(t) && Placed(t, p, Decided(conjunction, c, a, LowerExpr(r, a.c)).code)
    requires InScope(l, t.base) && InScope(r, t.base) && Matches(t.base, s, d) && c.stack >= t.base
    ensures var a := LowerExpr(l, Deciding(c));
            Yields(t, p, Decided(conjunction, c, a, LowerExpr(r, a.c)), c.vreg, d,
                   EvalShort(t.env, conjunction, l, r, s), n, d')
    decreases e, 0, 1
  {
    hide *;
    var a := LowerExpr(l, Deciding(c));
    var b := LowerExpr(r, a.c);
    var f := Decided(conjunction, c, a, b);
    var x := Eval(t.env, l, s);
    var early: Word := if conjunction then 0 else 1;
    DecidedShape(conjunction, c, a, b);
    EvalShortIs(t.env, conjunction, l, r, s);
    ShortCircuitParts(t, p, conjunction, c, a, b);
    var q := p + |a.code|;
    var m := q + 1 + |b.code|;
    n, d' := ExprRuns(t, p, l, Deciding(c), d, s);
    YieldsIs(t, p, a, c.vreg + 1, d, x, n, d');
    if x.None? {
      TrapsFirst(t, p, a, f, c.vreg + 1, c.vreg, d, n, d', d');
    } else {
      TailRuns(t, m + 1, d', c.vreg, c.lab, early);
      Branches(t, q, d', !conjunction, a.o, c.lab, m + 3, x.value.w);
      if (x.value.w != 0) != conjunction {
        GoesThen(t, p, d, n, q, d', 1, m + 4, d');
        DecidedYields(t, p, f, c.vreg, d, n + 1, m + 4, d', Res(early, x.value.s));
        n, d' := n + 3, d'.(regs := d'.regs[c.vreg := early]);
      } else {
        GoesThen(t, p, d, n, q, d', 1, q + 1, d');
        n, d' := SecondRuns(t, p, e, f, conjunction, r, a.c, c.vreg, c.lab, d, n + 1, q + 1, d', x.value.s);
      }
    }
  }

  lemma DecidedShape(conjunction: bool, c: Counters, a: Fragment, b: Fragment)
    ensures Decided(conjunction, c, a, b).o == Reg(c.vreg)
    ensures Deciding(c).vreg == c.vreg + 1 && Deciding(c).stack == c.stack
  {
  }

  lemma EvalShortIs(env: Env, conjunction: bool, l: Expr, r: Expr, s: Store)
    ensures var x := Eval(env, l, s);
            && (x.None? ==> EvalShort(env, conjunction, l, r, s) == None)
            && (x.Some? && (x.value.w != 0) != conjunction ==>
                  EvalShort(env, conjunction, l, r, s) == Some(Res(if conjunction then 0 else 1, x.value.s)))
            && (x.Some? && (x.value.w != 0) == conjunction ==>
                  var y := Eval(env, r, x.value.s);
                  EvalShort(env, conjunction, l, r, s) == if y.None? then None
                              else Some(Res(Truth(y.value.w != 0), y.value.s)))
  {
    hide Eval, Truth;
  }

  lemma YieldsIs(t: Site, p: nat, f: Fragment, v: nat, d: Data, r: Option<Res>, n: nat, d': Data)
    ensures Yields(t, p, f, v, d, r, n, d') <==>
              if r.None? then Traps(t, p, d, n)
              else
                && Goes(t, p, d, n, p + |f.code|, d') && Matches(t.base, r.value.s, d')
                && Val(d'.regs, f.o) == Some(r.value.w) && Keeps(v, d, d')
  {
  }

  /** The second operand decides: it is computed from `q` on. */
  lemma SecondRuns(t: Site, p: nat, e: Expr, f: Fragment, conjunction: bool, r: Expr, c: Counters, v: nat, l: Label,
                   d: Data, n: nat, q: nat, d1: Data, s: Store)
      returns (n': nat, d': Data)
    requires r < e && Proper(t) && Placed(t, q, LowerExpr(r, c).code) && InScope(r, t.base) && c.stack >= t.base
        && v < c.vreg
    requires Goes(t, p, d, n, q, d1) && Matches(t.base, s, d1) && Keeps(v + 1, d, d1)
    requires var b := LowerExpr(r, c);
             var m := q + |b.code|;
             && m < |t.code| && t.code[m] == JmpIf(!conjunction, b.o, l)
             && Placed(t, m + 1, DecidingTail(v, l, if conjunction then 0 else 1)) && p + |f.code| == m + 6
             && f.o == Reg(v)
    ensures var y := Eval(t.env, r, s);
            Yields(t, p, f, v, d, if y.None? then None else Some(Res(Truth(y.value.w != 0), y.value.s)), n', d')
    decreases e, 0, 0
  {
    hide *;
    var b := LowerExpr(r, c);
    var n2, d2 := ExprRuns(t, q, r, c, d1, s);
    var y := Eval(t.env, r, s);
    YieldsIs(t, q, b, c.vreg, d1, y, n2, d2);
    if y.None? {
      TrapsThen(t, p, d, n, q, d1, n2);
      n', d' := n + n2, d2;
      YieldsIs(t, p, f, v, d, None, n', d');
    } else {
      GoesThen(t, p, d, n, q, d1, n2, q + |b.code|, d2);
      KeepsThen(v + 1, c.vreg, d, d1, d2);
      n', d' := SecondDecides(t, p, f, conjunction, b.o, v, l, d, n + n2, q + |b.code|, d2, y.value);
    }
  }

  // ----- `?:` -----

  lemma PlacedThree(t: Site, p: nat, x: Inst, y: Inst, z: Inst)
    requires Placed(t, p, [x, y, z])
    ensures p + 2 < |t.code| && t.code[p] == x && t.code[p + 1] == y && t.code[p + 2] == z
  {
    PlacedAt(t, p, [x, y, z], 0);
    PlacedAt(t, p, [x, y, z], 1);
    PlacedAt(t, p, [x, y, z], 2);
  }

  lemma PlacedOne(t: Site, p: nat, x: Inst)
    requires Placed(t, p, [x])
    ensures p < |t.code| && t.code[p] == x
  {
    PlacedAt(t, p, [x], 0);
  }

  /** Where the parts of a conditional expression are. */
  lemma ConditionalParts(t: Site, p: nat, c: Counters, a: Fragment, b: Fragment, f: Fragment)
    requires Placed(t, p, Chosen(c, a, b, f).code)
    ensures var slot := -(c.stack as int + 8);
            var q := p + |a.code|;
            var m := q + 1 + |b.code|;
            var k := m + 3 + |f.code|;
            && Placed(t, p, a.code) && q < |t.code| && t.code[q] == JmpIf(false, a.o, c.lab)
            && Placed(t, q + 1, b.code)
            && m + 2 < |t.code| && t.code[m] == StoreStack(slot, b.o) && t.code[m + 1] == Jmp(c.lab + 1)
            && t.code[m + 2] == Mark(c.lab)
            && Placed(t, m + 3, f.code)
            && k + 2 < |t.code| && t.code[k] == StoreStack(slot, f.o) && t.code[k + 1] == Mark(c.lab + 1)
            && t.code[k + 2] == LoadStack(f.c.vreg, slot)
            && p + |Chosen(c, a, b, f).code| == k + 3
  {
    hide *;
    ChosenIs(c, a, b, f);
    var slot := -(c.stack as int + 8);
    var j := JmpIf(false, a.o, c.lab);
    var x := [StoreStack(slot, b.o), Jmp(c.lab + 1), Mark(c.lab)];
    var y := [StoreStack(slot, f.o), Mark(c.lab + 1), LoadStack(f.c.vreg, slot)];
    var first := a.code + [j] + b.code + x;
    assert |first| == |a.code| + |b.code| + 4 && |first + f.code| == |first| + |f.code|;
    PlacedSplit(t, p, first + f.code, y);
    PlacedSplit(t, p, first, f.code);
    ConditionalFront(t, p, a.code, j, b.code, StoreStack(slot, b.o), Jmp(c.lab + 1), Mark(c.lab));
    PlacedThree(t, p + |first + f.code|, StoreStack(slot, f.o), Mark(c.lab + 1), LoadStack(f.c.vreg, slot));
  }

  lemma ChosenIs(c: Counters, a: Fragment, b: Fragment, f: Fragment)
    ensures var slot := -(c.stack as int + 8);
            Chosen(c, a, b, f).code
            == a.code + [JmpIf(false, a.o, c.lab)] + b.code + [StoreStack(slot, b.o), Jmp(c.lab + 1), Mark(c.lab)]
               + f.code + [StoreStack(slot, f.o), Mark(c.lab + 1), LoadStack(f.c.vreg, slot)]
  {
  }

  lemma ConditionalFront(t: Site, p: nat, a: Code, j: Inst, b: Code, x: Inst, y: Inst, z: Inst)
    requires Placed(t, p, a + [j] + b + [x, y, z])
    ensures var q := p + |a|;
            var m := q + 1 + |b|;
            && Placed(t, p, a) && q < |t.code| && t.code[q] == j && Placed(t, q + 1, b)
            && m + 2 < |t.code| && t.code[m] == x && t.code[m + 1] == y && t.code[m + 2] == z
  {
    hide *;
    PlacedSplit(t, p, a + [j] + b, [x, y, z]);
    PlacedSplit(t, p, a + [j], b);
    PlacedSplit(t, p, a, [j]);
    PlacedOne(t, p + |a|, j);
    PlacedThree(t, p + |a + [j] + b|, x, y, z);
  }

  /** Storing to the temporary slot changes no local. */
  lemma StoresTemp(t: Site, p: nat, d: Data, s: Store, slot: int, o: Opnd, w: Word)
    requires p < |t.code| && t.code[p] == StoreStack(slot, o) && Matches(t.base, s, d) && Val(d.regs, o) == Some(w)
        && slot + t.base < 0
    ensures var d' := d.(slots := d.slots[slot := w]); Goes(t, p, d, 1, p + 1, d') && Matches(t.base, s, d')
  {
    var d' := d.(slots := d.slots[slot := w]);
    Executes(t, p, d, d');
    forall k: int | k + t.base >= 0 ensures Alike(d'.slots, s.vars, k) { assert Alike(d.slots, s.vars, k); }
  }

  lemma LoadsTemp(t: Site, p: nat, d: Data, slot: int, r: nat)
    requires p < |t.code| && t.code[p] == LoadStack(r, slot)
    ensures Goes(t, p, d, 1, p + 1, d.(regs := d.regs[r := Slot(d.slots, slot)]))
  {
    Executes(t, p, d, d.(regs := d.regs[r := Slot(d.slots, slot)]));
  }

  /** From a branch's value to the end: store it, get to the end label, load it. */
  lemma MeetRuns(t: Site, p: nat, d: Data, s: Store, slot: int, o: Opnd, w: Word, jumps: bool, k: nat, l: Label,
                 r: nat) returns (n: nat, d': Data)
    requires Proper(t) && p + 1 < |t.code| && t.code[p] == StoreStack(slot, o)
    requires if jumps then t.code[p + 1] == Jmp(l) else p == k
    requires k + 2 < |t.code| && t.code[k + 1] == Mark(l) && t.code[k + 2] == LoadStack(r, slot)
    requires Matches(t.base, s, d) && Val(d.regs, o) == Some(w) && slot + t.base < 0
    ensures Goes(t, p, d, n, k + 3, d') && Matches(t.base, s, d') && Val(d'.regs, Reg(r)) == Some(w) && Keeps(r, d, d')
  {
    hide Proper, Goes, Matches;
    var d1 := d.(slots := d.slots[slot := w]);
    StoresTemp(t, p, d, s, slot, o, w);
    if jumps { Jumps(t, p + 1, d1, l, k + 1); } else { Passes(t, p + 1, d1); }
    GoesThen(t, p, d, 1, p + 1, d1, 1, k + 2, d1);
    LoadsTemp(t, k + 2, d1, slot, r);
    var d2 := d1.(regs := d1.regs[r := w]);
    GoesThen(t, p, d, 2, k + 2, d1, 1, k + 3, d2);
    SetReg(t.base, s, r, d, d1, r, w);
    n, d' := 3, d2;
  }

  /** One branch of a conditional expression, from its start at `q` to the end at `k + 3`. */
  lemma BranchRuns(t: Site, q: nat, e: Expr, x: Expr, c: Counters, d: Data, s: Store, slot: int, jumps: bool, k: nat,
                   l: Label, r: nat) returns (n: nat, d': Data)
    requires x < e && Proper(t) && Placed(t, q, LowerExpr(x, c).code) && InScope(x, t.base) && c.stack >= t.base
        && slot + t.base < 0
    requires var f := LowerExpr(x, c);
             var p := q + |f.code|;
             && p + 1 < |t.code| && t.code[p] == StoreStack(slot, f.o)
             && (if jumps then t.code[p + 1] == Jmp(l) else p == k)
             && f.c.vreg <= r
    requires k + 2 < |t.code| && t.code[k + 1] == Mark(l) && t.code[k + 2] == LoadStack(r, slot)
    requires Matches(t.base, s, d)
    ensures var v := Eval(t.env, x, s);
            if v.None? then Traps(t, q, d, n)
            else Goes(t, q, d, n, k + 3, d') && Holding(t.base, c.vreg, Reg(r), d, d', v.value)
    decreases e, 0, 0
  {
    hide Proper, Goes, Matches, Traps, Keeps, Placed, LowerExpr, InScope, Eval;
    var f := LowerExpr(x, c);
    var p := q + |f.code|;
    n, d' := ExprRuns(t, q, x, c, d, s);
    var v := Eval(t.env, x, s);
    if v.Some? {
      var m, d2 := MeetRuns(t, p, d', v.value.s, slot, f.o, v.value.w, jumps, k, l, r);
      GoesThen(t, q, d, n, p, d', m, k + 3, d2);
      KeepsThen(c.vreg, r, d, d', d2);
      n, d' := n + m, d2;
    }
  }

  lemma ConditionalIs(env: Env, e: Expr, c: Counters, s: Store)
    requires e.Conditional?
    ensures var a := LowerExpr(e.cond, Choosing(c));
            var b := LowerExpr(e.l, a.c);
            var f := LowerExpr(e.r, b.c);
            var x := Eval(env, e.cond, s);
            && LowerExpr(e, c) == Chosen(c, a, b, f) && Chosen(c, a, b, f).o == Reg(f.c.vreg)
            && Eval(env, e, s) == if x.None? then None else if x.value.w != 0 then Eval(env, e.l, x.value.s)
                        else Eval(env, e.r, x.value.s)
  {
  }

  lemma ConditionalScope(e: Expr, base: nat, c: Counters)
    requires e.Conditional? && InScope(e, base) && c.stack >= base
    ensures InScope(e.cond, base) && InScope(e.l, base) && InScope(e.r, base)
    ensures Choosing(c).stack >= base && -(c.stack as int + 8) + base < 0 && Choosing(c).vreg == c.vreg
  {
  }

  lemma ConditionalRuns(t: Site, p: nat, e: Expr, c: Counters, d: Data, s: Store) returns (n: nat, d': Data)
    requires e.Conditional? && Proper(t) && Placed(t, p, LowerExpr(e, c).code) && InScope(e, t.base)
    requires Matches(t.base, s, d) && c.stack >= t.base
    ensures Yields(t, p, LowerExpr(e, c), c.vreg, d, Eval(t.env, e, s), n, d')
    decreases e, 0, 1
  {
    hide LowerExpr, Placed, Goes, Keeps, Traps, Proper, Matches, Chosen, Choosing, InScope, Eval;
    ConditionalIs(t.env, e, c, s);
    ConditionalScope(e, t.base, c);
    var a := LowerExpr(e.cond, Choosing(c));
    var b := LowerExpr(e.l, a.c);
    var f := LowerExpr(e.r, b.c);
    var whole := Chosen(c, a, b, f);
    var slot := -(c.stack as int + 8);
    ConditionalParts(t, p, c, a, b, f);
    var q := p + |a.code|;
    var m := q + 1 + |b.code|;
    var k := m + 3 + |f.code|;
    var x := Eval(t.env, e.cond, s);
    n, d' := ExprRuns(t, p, e.cond, Choosing(c), d, s);
    if x.Some? {
      Branches(t, q, d', false, a.o, c.lab, m + 2, x.value.w);
      var yes := x.value.w != 0;
      var next := if yes then q + 1 else m + 3;
      GoesThen(t, p, d, n, q, d', 1, next, d');
      var n2, d2 := 0, d';
      if yes {
        n2, d2 := BranchRuns(t, q + 1, e, e.l, a.c, d', x.value.s, slot, true, k, c.lab + 1, f.c.vreg);
      } else {
        n2, d2 := BranchRuns(t, m + 3, e, e.r, b.c, d', x.value.s, slot, false, k, c.lab + 1, f.c.vreg);
      }
      ChosenYields(t, p, whole, c.vreg, if yes then a.c.vreg
                  else b.c.vreg, d, n + 1, next, d', n2, d2, Eval(t.env, e, s));
      n, d' := n + 1 + n2, d2;
    }
  }

  lemma ChosenYields(t: Site, p: nat, f: Fragment, v: nat, v1: nat, d: Data, n: nat, q: nat, d1: Data, m: nat, d2: Data,
                     r: Option<Res>)
    requires Goes(t, p, d, n, q, d1) && Keeps(v, d, d1) && v <= v1
    requires if r.None? then Traps(t, q, d1, m) else Goes(t, q, d1, m, p + |f.code|, d2)
                                                     && Holding(t.base, v1, f.o, d1, d2, r.value)
    ensures Yields(t, p, f, v, d, r, n + m, d2)
  {
    hide Matches;
    if r.None? {
      TrapsThen(t, p, d, n, q, d1, m);
    } else {
      GoesThen(t, p, d, n, q, d1, m, p + |f.code|, d2);
      KeepsThen(v, v1, d, d1, d2);
    }
    hide Goes, Traps;
  }

  // ----- calls -----

  lemma InvokeIs(env: Env, e: Expr, c: Counters, s: Store)
    requires e.Invoke?
    ensures LowerExpr(e, c) == Invoking(e.name, LowerArgs(e.args, c))
    ensures var a := EvalAll(env, e.args, s);
            Eval(env, e, s) == if a.None? then None else Some(Invoked(env, e.name, a.value))
  {
  }

  /** A callee sees the same in the slots as in the locals, and does the same to both. */
  lemma AnswersAlike(t: Site, s: Store, d: Data, target: Target, ws: seq<Word>)
    requires Proper(t) && Matches(t.base, s, d)
    ensures Shown(t.env, d.slots) == Shown(t.env, s.vars)
    ensures var a, b := Answer(t.env, d.trace, target, ws, d.slots), Answer(t.env, s.trace, target, ws, s.vars);
            a.value == b.value && forall k: int :: k + t.base >= 0 ==> Alike(a.slots, b.slots, k)
  {
    var x, y := Shown(t.env, d.slots), Shown(t.env, s.vars);
    forall k: int | t.env.shared(k) ensures (k in x <==> k in y) && (k in x ==> x[k] == y[k]) {
      assert Alike(d.slots, s.vars, k);
    }
    assert forall k :: k in x ==> t.env.shared(k);
    assert forall k :: k in y ==> t.env.shared(k);
    assert x == y;
    var a, b := Answer(t.env, d.trace, target, ws, d.slots), Answer(t.env, s.trace, target, ws, s.vars);
    hide Shown, Proper;
    forall k: int | k + t.base >= 0 ensures Alike(a.slots, b.slots, k) {
      assert Alike(d.slots, s.vars, k);
    }
  }

  /** The operands hold the arguments. */
  ghost predicate Laid(base: nat, v: nat, ops: seq<Opnd>, d: Data, d': Data, r: Results) {
    Matches(base, r.s, d') && Vals(d'.regs, ops) == Some(r.ws) && Keeps(v, d, d')
  }

  ghost predicate Delivers(t: Site, p: nat, f: Passing, v: nat, d: Data, r: Option<Results>, n: nat, d': Data) {
    if r.None? then Traps(t, p, d, n)
    else Goes(t, p, d, n, p + |f.code|, d') && Laid(t.base, v, f.ops, d, d', r.value)
  }

  lemma ArgsParts(t: Site, p: nat, es: Exprs, c: Counters)
    requires es.MoreExprs? && Placed(t, p, LowerArgs(es, c).code)
    ensures var a := LowerExpr(es.head, c);
            var b := LowerArgs(es.tail, a.c);
            && LowerArgs(es, c) == Passing(a.code + b.code, [a.o] + b.ops, b.c)
            && Placed(t, p, a.code) && Placed(t, p + |a.code|, b.code)
  {
    hide Placed;
    var a := LowerExpr(es.head, c);
    PlacedSplit(t, p, a.code, LowerArgs(es.tail, a.c).code);
  }

  lemma ArgsEval(env: Env, es: Exprs, s: Store)
    requires es.MoreExprs?
    ensures var x := Eval(env, es.head, s);
            && (x.None? ==> EvalAll(env, es, s) == None)
            && (x.Some? ==>
                  var y := EvalAll(env, es.tail, x.value.s);
                  EvalAll(env, es, s)
                  == if y.None? then None else Some(Results([x.value.w] + y.value.ws, y.value.s)))
  {
  }

  /** The value of the first operand survives the evaluation of the others. */
  lemma LaidMore(base: nat, v: nat, v1: nat, o: Opnd, ops: seq<Opnd>, d: Data, d1: Data, d2: Data, x: Res, y: Results)
    requires Val(d1.regs, o) == Some(x.w) && Keeps(v, d, d1) && Laid(base, v1, ops, d1, d2, y)
    requires v <= v1 && (o.Reg? ==> o.v < v1)
    ensures Laid(base, v, [o] + ops, d, d2, Results([x.w] + y.ws, y.s))
  {
    hide Matches;
    KeepsThen(v, v1, d, d1, d2);
    KeepsVal(v1, d1, d2, o);
    hide Keeps;
    assert ([o] + ops)[1..] == ops;
  }

  lemma {:induction false} ArgsRun(t: Site, p: nat, es: Exprs, c: Counters, d: Data, s: Store)
      returns (n: nat, d': Data)
    requires Proper(t) && Placed(t, p, LowerArgs(es, c).code) && ArgsInScope(es, t.base)
    requires Matches(t.base, s, d) && c.stack >= t.base
    ensures Delivers(t, p, LowerArgs(es, c), c.vreg, d, EvalAll(t.env, es, s), n, d')
    decreases es, 0
  {
    hide *;
    if es.NoExpr? {
      n, d' := 0, d;
      NothingLaid(t, p, es, c, d, s);
    } else {
      ArgsParts(t, p, es, c);
      ArgsEval(t.env, es, s);
      ArgsInside(es, t.base);
      var a := LowerExpr(es.head, c);
      var b := LowerArgs(es.tail, a.c);
      var x := Eval(t.env, es.head, s);
      n, d' := ExprRuns(t, p, es.head, c, d, s);
      YieldsIs(t, p, a, c.vreg, d, x, n, d');
      if x.Some? {
        var d1 := d';
        var m, d2 := ArgsRun(t, p + |a.code|, es.tail, a.c, d1, x.value.s);
        var y := EvalAll(t.env, es.tail, x.value.s);
        DeliversIs(t, p + |a.code|, b, a.c.vreg, d1, y, m, d2);
        if y.None? {
          TrapsThen(t, p, d, n, p + |a.code|, d1, m);
        } else {
          GoesThen(t, p, d, n, p + |a.code|, d1, m, p + |a.code| + |b.code|, d2);
          LaidMore(t.base, c.vreg, a.c.vreg, a.o, b.ops, d, d1, d2, x.value, y.value);
        }
        n, d' := n + m, d2;
      }
      DeliversIs(t, p, LowerArgs(es, c), c.vreg, d, EvalAll(t.env, es, s), n, d');
    }
  }

  lemma NothingLaid(t: Site, p: nat, es: Exprs, c: Counters, d: Data, s: Store)
    requires es.NoExpr? && Matches(t.base, s, d)
    ensures Delivers(t, p, LowerArgs(es, c), c.vreg, d, EvalAll(t.env, es, s), 0, d)
  {
    hide Matches;
    NoSteps(t, p, d);
  }

  lemma ArgsInside(es: Exprs, base: nat)
    requires es.MoreExprs? && ArgsInScope(es, base)
    ensures InScope(es.head, base) && ArgsInScope(es.tail, base)
  {
  }

  lemma DeliversIs(t: Site, p: nat, f: Passing, v: nat, d: Data, r: Option<Results>, n: nat, d': Data)
    ensures Delivers(t, p, f, v, d, r, n, d') <==>
              if r.None? then Traps(t, p, d, n)
              else Goes(t, p, d, n, p + |f.code|, d') && Laid(t.base, v, f.ops, d, d', r.value)
  {
  }

  /** The call itself. */
  lemma Answers(t: Site, p: nat, name: nat, v: nat, r: nat, ops: seq<Opnd>, d: Data, d1: Data, a: Results)
    requires Proper(t) && p < |t.code| && t.code[p] == IR.Call(r, Direct(name), ops, [])
    requires Laid(t.base, v, ops, d, d1, a) && v <= r
    ensures var x := Invoked(t.env, name, a);
            var d2 := CallOut(t.env, d1, r, Named(name), a.ws);
            Goes(t, p, d1, 1, p + 1, d2) && Holding(t.base, v, Reg(r), d, d2, x)
  {
    AnswersAlike(t, a.s, d1, Named(name), a.ws);
    hide Proper, Answer, Shown, Vals;
    Executes(t, p, d1, CallOut(t.env, d1, r, Named(name), a.ws));
  }

  lemma InvokeRuns(t: Site, p: nat, e: Expr, c: Counters, d: Data, s: Store) returns (n: nat, d': Data)
    requires e.Invoke? && Proper(t) && Placed(t, p, LowerExpr(e, c).code) && InScope(e, t.base)
    requires Matches(t.base, s, d) && c.stack >= t.base
    ensures Yields(t, p, LowerExpr(e, c), c.vreg, d, Eval(t.env, e, s), n, d')
    decreases e, 0
  {
    InvokeIs(t.env, e, c, s);
    assert ArgsInScope(e.args, t.base);
    var a := LowerArgs(e.args, c);
    var i := IR.Call(a.c.vreg, Direct(e.name), a.ops, []);
    hide LowerExpr, LowerArgs, Eval, EvalAll, InScope, ArgsInScope, Placed, Proper, Goes, Traps, Matches, Keeps, Laid;
    hide Holding, Invoked;
    PlacedSplit(t, p, a.code, [i]);
    PlacedAt(t, p + |a.code|, [i], 0);
    n, d' := ArgsRun(t, p, e.args, c, d, s);
    var r := EvalAll(t.env, e.args, s);
    if r.Some? {
      var x := Invoked(t.env, e.name, r.value);
      Answers(t, p + |a.code|, e.name, c.vreg, a.c.vreg, a.ops, d, d', r.value);
      var d2 := CallOut(t.env, d', a.c.vreg, Named(e.name), r.value.ws);
      GoesThen(t, p, d, n, p + |a.code|, d', 1, p + |a.code| + 1, d2);
      n, d' := n + 1, d2;
    }
  }
}
