/** Constant propagation and folding (`opt_constant_propagation`). */
module ConstProp {
  import opened Word64
  import opened Arithmetic
  import opened IR
  import opened Simulation
  import opened LoweredForm
  import opened Lockstep
  import opened Function

  const MAX_STACK_CONSTS: nat := 64

  /** Known constants: of registers, for good, and of stack slots, up to the next mark, call or store.
      A slot entry that was invalidated stays in the table and takes room. */
  datatype Known = Known(consts: map<nat, Word>, stack: map<int, Option<Word>>)

  function SetConst(t: map<int, Option<Word>>, k: int, w: Word): map<int, Option<Word>> {
    if k in t || |t| < MAX_STACK_CONSTS then t[k := Some(w)] else t
  }

  function Invalidate(t: map<int, Option<Word>>, k: int): map<int, Option<Word>> {
    if k in t then t[k := None] else t
  }

  function Lookup(t: map<int, Option<Word>>, k: int): Option<Word> {
    if k in t then t[k] else None
  }

  /** The compiler's own arithmetic on two constants. It leaves a division by zero alone. (For
      INT64_MIN / -1 the C expression is undefined; the run being compiled traps there.) */
  function Fold(op: BinOp, a: Word, b: Word): Option<Word> {
    if op.Div? then (if b != 0 then Some(Wrap(TruncDiv(a, b))) else None)
    else if op.Mod? then (if b != 0 then Some(Wrap(TruncMod(a, b))) else None)
    else Alu(op, a, b)
  }

  function ConstOf(consts: map<nat, Word>, o: Opnd): Opnd {
    if o.Reg? && o.v in consts then Imm(consts[o.v]) else o
  }

  function ConstsOf(consts: map<nat, Word>, os: seq<Opnd>): (r: seq<Opnd>)
    ensures |r| == |os|
  {
    if os == [] then [] else [ConstOf(consts, os[0])] + ConstsOf(consts, os[1..])
  }

  // ----- counting definitions -----

  /** The register in the destination field; a pointer store keeps its pointer there. */
  function DestReg(inst: Inst): Option<nat> {
    if inst.Store? then (if inst.p.Reg? then Some(inst.p.v) else None) else Def(inst)
  }

  function DestCount(code: Code, n: nat, v: nat): nat
    requires n <= |code|
  {
    if n == 0 then 0 else DestCount(code, n - 1, v) + (if DestReg(code[n - 1]) == Some(v) then 1 else 0)
  }

  predicate Once(code: Code, v: nat) {
    DestCount(code, |code|, v) == 1
  }

  method CountDests(code: Code) returns (count: map<nat, nat>)
    ensures forall v :: (if v in count then count[v] else 0) == DestCount(code, |code|, v)
  {
    count := map[];
    for i := 0 to |code|
      invariant forall v :: (if v in count then count[v] else 0) == DestCount(code, i, v)
    {
      var d := DestReg(code[i]);
      if d.Some? { count := count[d.value := (if d.value in count then count[d.value] else 0) + 1]; }
    }
  }

  // ----- one instruction -----

  function Rewrite(kn: Known, inst: Inst): Inst {
    match inst
    case Call(d, callee, args, kinds) => Call(d, callee, ConstsOf(kn.consts, args), kinds)
    case Store(p, off, s, size) => Store(p, off, ConstOf(kn.consts, s), size)
    case StoreStack(k, s) => StoreStack(k, ConstOf(kn.consts, s))
    case LoadStack(d, k) =>
      var w := Lookup(kn.stack, k);
      if w.Some? then Const(d, w.value) else inst
    case Mov(d, s) =>
      var s' := ConstOf(kn.consts, s);
      if s'.Imm? then Const(d, s'.i) else inst
    case Ret(s) => Ret(ConstOf(kn.consts, s))
    case JmpIf(nonzero, c, l) => JmpIf(nonzero, ConstOf(kn.consts, c), l)
    case Bin(op, d, a, b) =>
      var a', b' := ConstOf(kn.consts, a), ConstOf(kn.consts, b);
      if a'.Imm? && b'.Imm? && Fold(op, a'.i, b'.i).Some? then Const(d, Fold(op, a'.i, b'.i).value)
      else Bin(op, d, a', b')
    case _ => inst
  }

  /** What is known of slots behind `inst`. */
  function StackBehind(kn: Known, inst: Inst): map<int, Option<Word>> {
    match inst
    case Mark(_) => map[]
    case Call(_, _, _, _) => map[]
    case Store(_, _, _, _) => map[]
    case AddrStack(_, k) => Invalidate(kn.stack, k)
    case StoreArg(k, _) => Invalidate(kn.stack, k)
    case StoreStack(k, s) =>
      var s' := ConstOf(kn.consts, s);
      if s'.Imm? then SetConst(kn.stack, k, s'.i) else Invalidate(kn.stack, k)
    case _ => kn.stack
  }

  /** A register set to a constant is remembered if it has one definition; a folded result always is. */
  function Learn(kn: Known, once: bool, inst: Inst): Known {
    var inst' := Rewrite(kn, inst);
    var consts := if inst'.Const? && (once || inst.Bin?) then kn.consts[inst'.d := inst'.c] else kn.consts;
    Known(consts, StackBehind(kn, inst))
  }

  ghost predicate OnceDefined(code: Code, inst: Inst) {
    Def(inst).Some? && Once(code, Def(inst).value)
  }

  ghost function KnownAt(code: Code, i: nat): Known
    requires i <= |code|
  {
    if i == 0 then Known(map[], map[])
    else Learn(KnownAt(code, i - 1), OnceDefined(code, code[i - 1]), code[i - 1])
  }

  ghost function Propagated(code: Code): (q: Code)
    ensures |q| == |code|
  {
    seq(|code|, i requires 0 <= i < |code| => Rewrite(KnownAt(code, i), code[i]))
  }

  ghost function PropagatedTo(code: Code, i: nat): Code
    requires i <= |code|
  {
    Propagated(code)[..i] + code[i..]
  }

  lemma PropagatedNext(code: Code, i: nat)
    requires i < |code|
    ensures PropagatedTo(code, i)[i] == code[i]
    ensures PropagatedTo(code, i + 1) == PropagatedTo(code, i)[i := Rewrite(KnownAt(code, i), code[i])]
    ensures KnownAt(code, i + 1) == Learn(KnownAt(code, i), OnceDefined(code, code[i]), code[i])
  {
  }

  lemma PropagatedEnds(code: Code)
    ensures PropagatedTo(code, 0) == code && PropagatedTo(code, |code|) == Propagated(code)
  {
  }

  method ConstantPropagation(fn: IRFunction) returns (changed: bool)
    modifies fn
    ensures fn.insts == Propagated(old(fn.insts))
    ensures SingleDefinitions(old(fn.insts)) ==> Folds(old(fn.insts), fn.insts)
    ensures !changed ==> fn.insts == old(fn.insts)
  {
    ghost var code := fn.insts;
    var n := |fn.insts|;
    var count := CountDests(fn.insts);
    var known := Known(map[], map[]);
    changed := false;
    PropagatedEnds(code);
    hide Learn, Rewrite, PropagatedTo, Propagated;
    for i := 0 to n
      invariant |code| == n == |fn.insts| && known == KnownAt(code, i) && fn.insts == PropagatedTo(code, i)
      invariant !changed ==> fn.insts == code
    {
      PropagatedNext(code, i);
      var inst := fn.insts[i];
      var d := Def(inst);
      var once := d.Some? && d.value in count && count[d.value] == 1;
      var inst' := Rewrite(known, inst);
      if inst' != inst {
        fn.Replace(i, inst');
        changed := true;
      }
      known := Learn(known, once, inst);
    }
    hide Folds, SingleDefinitions;
    if SingleDefinitions(code) { PropagatedFolds(code); }
  }

  // ----- what is known is true in every run -----

  lemma {:induction false} DestCountOne(code: Code, n: nat, v: nat, i: nat)
    requires i < n <= |code| && DestReg(code[i]) == Some(v)
    ensures DestCount(code, n, v) >= 1
    ensures DestCount(code, n, v) == 1 ==> forall j :: 0 <= j < n && DestReg(code[j]) == Some(v) ==> j == i
  {
    if i == n - 1 {
      NoDests(code, n - 1, v);
    } else {
      DestCountOne(code, n - 1, v, i);
    }
  }

  lemma {:induction false} NoDests(code: Code, n: nat, v: nat)
    requires n <= |code|
    ensures DestCount(code, n, v) == 0 <==> forall j :: 0 <= j < n ==> DestReg(code[j]) != Some(v)
  {
    if n > 0 { NoDests(code, n - 1, v); }
  }

  /** Index `j` holds the only definition of `v`. */
  ghost predicate OnlyDef(code: Code, v: nat, j: nat) {
    && j < |code| && Def(code[j]) == Some(v)
    && forall m :: 0 <= m < |code| && Def(code[m]) == Some(v) ==> m == j
  }

  lemma LearnedOnce(code: Code, i: nat)
    requires SingleDefinitions(code) && i < |code| && Def(code[i]).Some?
    requires OnceDefined(code, code[i]) || code[i].Bin?
    ensures OnlyDef(code, Def(code[i]).value, i)
  {
    var v := Def(code[i]).value;
    if OnceDefined(code, code[i]) { DestCountOne(code, |code|, v, i); }
  }

  /** A register believed constant was set to that constant by its only definition. */
  lemma {:induction false} ConstOrigin(code: Code, i: nat, v: nat) returns (j: nat)
    requires SingleDefinitions(code) && i <= |code| && v in KnownAt(code, i).consts
    ensures j < i && OnlyDef(code, v, j)
    ensures Propagated(code)[j] == Const(v, KnownAt(code, i).consts[v])
  {
    var kn, inst := KnownAt(code, i - 1), code[i - 1];
    var inst' := Rewrite(kn, inst);
    if inst'.Const? && (OnceDefined(code, inst) || inst.Bin?) && inst'.d == v {
      j := i - 1;
      LearnedOnce(code, j);
    } else {
      j := ConstOrigin(code, i - 1, v);
    }
  }

  lemma {:induction false} ConstsStay(code: Code, i: nat, n: nat, v: nat)
    requires i <= n <= |code| && v in KnownAt(code, i).consts
    ensures v in KnownAt(code, n).consts
    decreases n
  {
    if i < n { ConstsStay(code, i, n - 1, v); }
  }

  lemma ConstsAgree(code: Code, i: nat, v: nat)
    requires SingleDefinitions(code) && i <= |code| && v in KnownAt(code, i).consts
    ensures v in KnownAt(code, |code|).consts && KnownAt(code, |code|).consts[v] == KnownAt(code, i).consts[v]
  {
    ConstsStay(code, i, |code|, v);
    var j := ConstOrigin(code, i, v);
    var j' := ConstOrigin(code, |code|, v);
  }

  ghost predicate HoldsConsts(consts: map<nat, Word>, regs: Regs) {
    forall v :: v in consts && v in regs ==> regs[v] == consts[v]
  }

  ghost predicate HoldsSlots(stack: map<int, Option<Word>>, slots: Slots) {
    forall k :: Lookup(stack, k).Some? ==> Slot(slots, k) == Lookup(stack, k).value
  }

  /** Every register believed constant anywhere holds its constant once it is defined, and the slot
      table at `i` agrees with the slots. */
  ghost predicate Holds(code: Code, i: nat, d: Data)
    requires i <= |code|
  {
    HoldsConsts(KnownAt(code, |code|).consts, d.regs) && HoldsSlots(KnownAt(code, i).stack, d.slots)
  }

  ghost function Belief(code: Code): Fact {
    (i: nat, d: Data) => i <= |code| ==> Holds(code, i, d)
  }

  lemma HoldsHere(code: Code, i: nat, d: Data)
    requires SingleDefinitions(code) && i <= |code| && Holds(code, i, d)
    ensures HoldsConsts(KnownAt(code, i).consts, d.regs)
  {
    forall v | v in KnownAt(code, i).consts && v in d.regs ensures d.regs[v] == KnownAt(code, i).consts[v] {
      ConstsAgree(code, i, v);
    }
  }

  lemma ConstOfSame(consts: map<nat, Word>, regs: Regs, o: Opnd)
    requires HoldsConsts(consts, regs) && Val(regs, o).Some?
    ensures Val(regs, ConstOf(consts, o)) == Val(regs, o)
  {
  }

  lemma {:induction false} ConstsOfSame(consts: map<nat, Word>, regs: Regs, os: seq<Opnd>)
    requires HoldsConsts(consts, regs) && Vals(regs, os).Some?
    ensures Vals(regs, ConstsOf(consts, os)) == Vals(regs, os)
  {
    if os != [] {
      ConstOfSame(consts, regs, os[0]);
      ConstsOfSame(consts, regs, os[1..]);
      assert ConstsOf(consts, os)[1..] == ConstsOf(consts, os[1..]);
    }
  }

  lemma FoldIsAlu(op: BinOp, a: Word, b: Word)
    requires Alu(op, a, b).Some?
    ensures Fold(op, a, b) == Alu(op, a, b)
  {
  }

  /** Unless it traps, an instruction and its rewriting do the same. */
  lemma RewriteSame(env: Env, kn: Known, inst: Inst, d: Data)
    requires HoldsConsts(kn.consts, d.regs) && HoldsSlots(kn.stack, d.slots)
    requires !Exec(env, inst, d).Stuck?
    ensures Exec(env, Rewrite(kn, inst), d) == Exec(env, inst, d)
  {
    hide Alu, Fold;
    match inst
    case Call(_, _, args, _) => ConstsOfSame(kn.consts, d.regs, args);
    case Store(_, _, s, _) => ConstOfSame(kn.consts, d.regs, s);
    case StoreStack(_, s) => ConstOfSame(kn.consts, d.regs, s);
    case Mov(_, s) => ConstOfSame(kn.consts, d.regs, s);
    case Ret(s) => ConstOfSame(kn.consts, d.regs, s);
    case JmpIf(_, c, _) => ConstOfSame(kn.consts, d.regs, c);
    case Bin(op, _, a, b) =>
      ConstOfSame(kn.consts, d.regs, a);
      ConstOfSame(kn.consts, d.regs, b);
      FoldIsAlu(op, Val(d.regs, a).value, Val(d.regs, b).value);
    case _ =>
  }

  /** The definition at `i` writes the constant that is believed of its register. */
  lemma WritesBelief(env: Env, code: Code, i: nat, d: Data)
    requires SingleDefinitions(code) && i < |code| && Holds(code, i, d)
    requires Exec(env, code[i], d).Next?
    ensures HoldsConsts(KnownAt(code, |code|).consts, Exec(env, code[i], d).data.regs)
  {
    var consts, d' := KnownAt(code, |code|).consts, Exec(env, code[i], d).data;
    forall v | v in consts && v in d'.regs ensures d'.regs[v] == consts[v] {
      if Def(code[i]) == Some(v) {
        var j := ConstOrigin(code, |code|, v);
        assert Propagated(code)[i] == Const(v, consts[v]);
        HoldsHere(code, i, d);
        RewriteSame(env, KnownAt(code, i), code[i], d);
      } else {
        OtherRegsUnchanged(env, code[i], d, v);
      }
    }
  }

  lemma SlotsHeld(env: Env, kn: Known, inst: Inst, d: Data)
    requires HoldsConsts(kn.consts, d.regs) && HoldsSlots(kn.stack, d.slots)
    requires Exec(env, inst, d).Next?
    ensures HoldsSlots(StackBehind(kn, inst), Exec(env, inst, d).data.slots)
  {
    var d' := Exec(env, inst, d).data;
    if inst.StoreStack? { ConstOfSame(kn.consts, d.regs, inst.s); }
    forall k | Lookup(StackBehind(kn, inst), k).Some?
      ensures Slot(d'.slots, k) == Lookup(StackBehind(kn, inst), k).value
    {
      assert Lookup(kn.stack, k).Some? ==> Slot(d.slots, k) == Lookup(kn.stack, k).value;
    }
  }

  lemma StackNext(code: Code, i: nat)
    requires i < |code|
    ensures KnownAt(code, i + 1).stack == StackBehind(KnownAt(code, i), code[i])
  {
  }

  lemma PropagationStep(env: Env, code: Code, i: nat, d: Data)
    requires SingleDefinitions(code) && i < |code| && Holds(code, i, d)
    ensures KeepsStep(env, code, Propagated(code), Belief(code), i, d)
  {
    hide SingleDefinitions, Exec, Rewrite, StackBehind, HoldsConsts, HoldsSlots, KnownAt, Learn;
    var o := Exec(env, code[i], d);
    StackNext(code, i);
    HoldsHere(code, i, d);
    if !o.Stuck? { RewriteSame(env, KnownAt(code, i), code[i], d); }
    if o.Next? {
      WritesBelief(env, code, i, d);
      SlotsHeld(env, KnownAt(code, i), code[i], d);
    } else if o.Goto? {
      var b := Find(code, o.to);
      if b < |code| { NothingBehindMark(code, b, d.slots); }
    }
  }

  lemma NothingBehindMark(code: Code, b: nat, slots: Slots)
    requires b < |code| && code[b].Mark?
    ensures HoldsSlots(KnownAt(code, b + 1).stack, slots)
  {
  }

  lemma RewriteShape(kn: Known, inst: Inst)
    ensures var inst' := Rewrite(kn, inst);
            && Def(inst') == Def(inst)
            && Uses(inst') <= Uses(inst)
            && Reshapes(inst, inst')
            && (inst'.Mark? <==> inst.Mark?) && (inst.Mark? ==> inst' == inst)
            && (IsJump(inst') <==> IsJump(inst)) && (IsJump(inst) ==> inst'.to == inst.to)
            && (inst'.AddrStack? <==> inst.AddrStack?) && (inst.AddrStack? ==> inst' == inst)
  {
    if inst.Call? {
      forall v | v in RegsOfAll(ConstsOf(kn.consts, inst.args)) ensures v in RegsOfAll(inst.args) {
        ConstsOfRegs(kn.consts, inst.args, v);
      }
    }
  }

  lemma {:induction false} ConstsOfRegs(consts: map<nat, Word>, os: seq<Opnd>, v: nat)
    requires Reg(v) in ConstsOf(consts, os)
    ensures Reg(v) in os
  {
    if ConstOf(consts, os[0]) != Reg(v) { ConstsOfRegs(consts, os[1..], v); }
  }

  lemma PropagatedControl(code: Code)
    ensures SameControl(code, Propagated(code))
  {
    hide Rewrite;
    forall i | 0 <= i < |code| ensures Propagated(code)[i] == Rewrite(KnownAt(code, i), code[i]) {
      RewriteShape(KnownAt(code, i), code[i]);
    }
    forall i | 0 <= i < |code|
      ensures var inst, inst' := code[i], Propagated(code)[i];
              && (inst.Mark? <==> inst'.Mark?) && (inst.Mark? ==> inst == inst')
              && (IsJump(inst) <==> IsJump(inst')) && (IsJump(inst) ==> inst.to == inst'.to)
    {
      RewriteShape(KnownAt(code, i), code[i]);
    }
  }

  /** The rewritten function has the runs of the original. */
  lemma PropagationPreserves(env: Env, code: Code)
    requires Lowered(code)
    ensures Preserves(env, code, Propagated(code))
  {
    PropagatedControl(code);
    forall i: nat, d: Data | i < |code| && Belief(code)(i, d)
      ensures KeepsStep(env, code, Propagated(code), Belief(code), i, d)
    {
      PropagationStep(env, code, i, d);
    }
    forall slots: Slots ensures Belief(code)(0, Start(slots).data) {
      assert KnownAt(code, 0).stack == map[];
    }
    LockstepPreserves(env, code, Propagated(code), Belief(code));
  }

  lemma PropagationKeepsForm(code: Code)
    requires Lowered(code)
    ensures Lowered(Propagated(code)) && NoNew(code, Propagated(code)) && Taken(Propagated(code)) == Taken(code)
  {
    hide Rewrite;
    var q := Propagated(code);
    PropagatedControl(code);
    forall i | 0 <= i < |code|
      ensures Reshapes(code[i], q[i])
      ensures forall v :: v in Uses(q[i]) ==> UseOK(code, v, i)
      ensures code[i].AddrStack? <==> q[i].AddrStack?
      ensures code[i].AddrStack? ==> q[i] == code[i]
    {
      RewriteShape(KnownAt(code, i), code[i]);
    }
    RewritingKeepsForm(code, q);
  }

  // ----- everything that is constant is folded -----

  /** Instruction `j` of the result is what gives `v` its value, and it is `w`. A register that also points a
      store is remembered only as the result of an operation. */
  ghost predicate SetFor(code: Code, q: Code, j: nat, v: nat, w: Word)
    requires |q| == |code|
  {
    && j < |q| && q[j] == Const(v, w) && OnlyDef(q, v, j)
    && (code[j].Bin? || forall m :: 0 <= m < |q| && q[m].Store? ==> q[m].p != Reg(v))
  }

  ghost predicate RegKnown(code: Code, q: Code, i: nat, v: nat, w: Word)
    requires |q| == |code|
  {
    exists j: nat :: j < i && SetFor(code, q, j, v, w)
  }

  /** The operand is the constant `w` at instruction `i`. */
  ghost predicate WordKnown(code: Code, q: Code, i: nat, o: Opnd, w: Word)
    requires |q| == |code|
  {
    o == Imm(w) || (o.Reg? && RegKnown(code, q, i, o.v, w))
  }

  predicate Clears(inst: Inst) {
    inst.Mark? || inst.Call? || inst.Store?
  }

  predicate Touches(inst: Inst, k: int) {
    (inst.AddrStack? || inst.StoreArg? || inst.StoreStack?) && inst.slot == k
  }

  /** Behind the last mark, call or store through a pointer before `i`. */
  function Region(q: Code, i: nat): (c: nat)
    requires i <= |q|
    ensures c <= i
  {
    if i == 0 || Clears(q[i - 1]) then i else Region(q, i - 1)
  }

  predicate StoresConst(inst: Inst) {
    inst.StoreStack? && inst.s.Imm?
  }

  /** The slots that constants are stored to. */
  function ConstSlots(q: Code, c: nat, i: nat): set<int>
    requires i <= |q|
  {
    set m | c <= m < i && StoresConst(q[m]) :: q[m].slot
  }

  /** A constant is stored to slot `k` while fewer than 64 slots have been given one. */
  ghost predicate Entered(q: Code, c: nat, i: nat, k: int)
    requires i <= |q|
  {
    exists f: nat :: c <= f < i && StoresConst(q[f]) && q[f].slot == k && |ConstSlots(q, c, f)| < 64
  }

  /** Slot `k` holds the constant `w` at instruction `i`: the last to touch it stored `w`. */
  ghost predicate SlotKnown(q: Code, i: nat, k: int, w: Word)
    requires i <= |q|
  {
    exists j: nat :: Region(q, i) <= j < i && q[j] == StoreStack(k, Imm(w)) && Entered(q, Region(q, i), j + 1, k)
                     && forall m :: j < m < i ==> !Touches(q[m], k)
  }

  ghost predicate Becomes(code: Code, q: Code, i: nat, o: Opnd, o': Opnd)
    requires |q| == |code|
  {
    && (forall w :: WordKnown(code, q, i, o, w) ==> o' == Imm(w))
    && ((forall w :: !WordKnown(code, q, i, o, w)) ==> o' == o)
  }

  /** An operation on constants is the constant that it means; only a division by zero is left. */
  ghost predicate IsFolded(op: BinOp, d: nat, x: Word, y: Word, inst: Inst) {
    if (op.Div? || op.Mod?) && y == 0 then inst == Bin(op, d, Imm(x), Imm(y))
    else inst.Const? && inst.d == d && (!Stops(op, x, y) ==> Means(op, x, y, inst.c))
  }

  /** What instruction `i` of the result is, in terms of the instructions before it. */
  ghost predicate FoldsAt(code: Code, q: Code, i: nat)
    requires |q| == |code| && i < |q|
  {
    match code[i]
    case Bin(op, d, a, b) =>
      && (forall x, y :: WordKnown(code, q, i, a, x) && WordKnown(code, q, i, b, y) ==> IsFolded(op, d, x, y, q[i]))
      && ((forall x, y :: !(WordKnown(code, q, i, a, x) && WordKnown(code, q, i, b, y))) ==>
            && q[i].Bin? && q[i].op == op && q[i].d == d
            && Becomes(code, q, i, a, q[i].a) && Becomes(code, q, i, b, q[i].b))
    case Mov(d, s) =>
      && (forall w :: WordKnown(code, q, i, s, w) ==> q[i] == Const(d, w))
      && ((forall w :: !WordKnown(code, q, i, s, w)) ==> q[i] == code[i])
    case LoadStack(d, k) =>
      && (forall w :: SlotKnown(q, i, k, w) ==> q[i] == Const(d, w))
      && ((forall w :: !SlotKnown(q, i, k, w)) ==> q[i] == code[i])
    case Call(d, callee, args, kinds) =>
      && q[i].Call? && q[i] == Call(d, callee, q[i].args, kinds) && |q[i].args| == |args|
      && forall j :: 0 <= j < |args| ==> Becomes(code, q, i, args[j], q[i].args[j])
    case Store(p, off, s, size) =>
      q[i].Store? && q[i] == Store(p, off, q[i].s, size) && Becomes(code, q, i, s, q[i].s)
    case StoreStack(k, s) => q[i].StoreStack? && q[i].slot == k && Becomes(code, q, i, s, q[i].s)
    case Ret(s) => q[i].Ret? && Becomes(code, q, i, s, q[i].s)
    case JmpIf(nonzero, c, l) =>
      q[i].JmpIf? && q[i] == JmpIf(nonzero, q[i].cond, l) && Becomes(code, q, i, c, q[i].cond)
    case _ => q[i] == code[i]
  }

  ghost predicate Folds(code: Code, q: Code) {
    |q| == |code| && forall i :: 0 <= i < |q| ==> FoldsAt(code, q, i)
  }

  // The registers.

  lemma {:induction false} OnceExactly(code: Code, v: nat, n: nat)
    requires n <= |code|
    requires exists i :: 0 <= i < n && DestReg(code[i]) == Some(v)
    requires forall i, j :: 0 <= i < j < n && DestReg(code[i]) == Some(v) ==> DestReg(code[j]) != Some(v)
    ensures DestCount(code, n, v) == 1
  {
    if DestReg(code[n - 1]) == Some(v) { NoDests(code, n - 1, v); } else { OnceExactly(code, v, n - 1); }
  }

  lemma PropagatedIs(code: Code, j: nat)
    requires j < |code|
    ensures Propagated(code)[j] == Rewrite(KnownAt(code, j), code[j])
    ensures Def(Propagated(code)[j]) == Def(code[j])
    ensures code[j].Store? <==> Propagated(code)[j].Store?
    ensures code[j].Store? ==> Propagated(code)[j].p == code[j].p
  {
    RewriteShape(KnownAt(code, j), code[j]);
  }

  lemma OnlyDefSame(code: Code, v: nat, j: nat)
    ensures OnlyDef(Propagated(code), v, j) <==> OnlyDef(code, v, j)
  {
    hide Propagated, Rewrite;
    forall m: nat | m < |code| ensures Def(Propagated(code)[m]) == Def(code[m]) { PropagatedIs(code, m); }
  }

  lemma RegSettled(code: Code, j: nat, v: nat, w: Word)
    requires SetFor(code, Propagated(code), j, v, w)
    ensures v in KnownAt(code, j + 1).consts && KnownAt(code, j + 1).consts[v] == w
  {
    hide Propagated, Rewrite, Def, KnownAt;
    forall m: nat | m < |code|
      ensures Def(Propagated(code)[m]) == Def(code[m])
      ensures code[m].Store? ==> Propagated(code)[m].Store? && Propagated(code)[m].p == code[m].p
    {
      PropagatedIs(code, m);
    }
    PropagatedIs(code, j);
    if !code[j].Bin? {
      OnlyDefSame(code, v, j);
      assert DestReg(code[j]) == Some(v) by { OneDest(code, j, v, w); }
      OnceExactly(code, v, |code|);
    }
    LearnedHere(code, j, v, w);
  }

  lemma OneDest(code: Code, j: nat, v: nat, w: Word)
    requires j < |code| && Rewrite(KnownAt(code, j), code[j]) == Const(v, w)
    ensures DestReg(code[j]) == Def(code[j]) == Some(v)
  {
  }

  lemma LearnedHere(code: Code, j: nat, v: nat, w: Word)
    requires j < |code| && Rewrite(KnownAt(code, j), code[j]) == Const(v, w)
    requires code[j].Bin? || Once(code, v)
    ensures v in KnownAt(code, j + 1).consts && KnownAt(code, j + 1).consts[v] == w
  {
    OneDest(code, j, v, w);
    hide Rewrite;
  }

  lemma SetHere(code: Code, j: nat, v: nat, w: Word)
    requires SingleDefinitions(code) && j < |code| && Rewrite(KnownAt(code, j), code[j]) == Const(v, w)
    requires OnceDefined(code, code[j]) || code[j].Bin?
    ensures SetFor(code, Propagated(code), j, v, w)
  {
    hide SingleDefinitions, Rewrite, KnownAt;
    OneDest(code, j, v, w);
    LearnedOnce(code, j);
    OnlyDefSame(code, v, j);
    PropagatedIs(code, j);
    hide Propagated, OnlyDef;
    if !code[j].Bin? {
      DestCountOne(code, |code|, v, j);
      forall m: nat | m < |code| && Propagated(code)[m].Store? ensures Propagated(code)[m].p != Reg(v) {
        PropagatedIs(code, m);
        assert DestReg(code[m]) == Some(v) ==> m == j;
      }
    }
  }

  lemma {:induction false} RegRemembered(code: Code, i: nat, v: nat) returns (j: nat)
    requires SingleDefinitions(code) && i <= |code| && v in KnownAt(code, i).consts
    ensures j < i && SetFor(code, Propagated(code), j, v, KnownAt(code, i).consts[v])
  {
    hide SingleDefinitions, OnceDefined, SetFor, StackBehind, Rewrite;
    var kn, inst := KnownAt(code, i - 1), code[i - 1];
    var inst' := Rewrite(kn, inst);
    if inst'.Const? && (OnceDefined(code, inst) || inst.Bin?) && inst'.d == v {
      j := i - 1;
      SetHere(code, j, v, inst'.c);
    } else {
      j := RegRemembered(code, i - 1, v);
    }
  }

  lemma RegKnownExact(code: Code, i: nat, v: nat, w: Word)
    requires SingleDefinitions(code) && i <= |code|
    ensures RegKnown(code, Propagated(code), i, v, w)
       <==> v in KnownAt(code, i).consts && KnownAt(code, i).consts[v] == w
  {
    hide SingleDefinitions, KnownAt, Propagated, SetFor;
    if RegKnown(code, Propagated(code), i, v, w) {
      var j: nat :| j < i && SetFor(code, Propagated(code), j, v, w);
      assert j < |code| by { SetBounds(code, Propagated(code), j, v, w); }
      RegSettled(code, j, v, w);
      ConstsStay(code, j + 1, i, v);
      ConstsAgree(code, j + 1, v);
      ConstsAgree(code, i, v);
    }
    if v in KnownAt(code, i).consts { var j := RegRemembered(code, i, v); }
  }

  lemma SetBounds(code: Code, q: Code, j: nat, v: nat, w: Word)
    requires |q| == |code| && SetFor(code, q, j, v, w)
    ensures j < |code|
  {
  }

  lemma OperandExact(code: Code, i: nat, o: Opnd)
    requires SingleDefinitions(code) && i <= |code|
    ensures var o' := ConstOf(KnownAt(code, i).consts, o);
            && Becomes(code, Propagated(code), i, o, o')
            && forall w :: WordKnown(code, Propagated(code), i, o, w) <==> o' == Imm(w)
  {
    hide SingleDefinitions, KnownAt, Propagated, RegKnown;
    if o.Reg? {
      forall w ensures RegKnown(code, Propagated(code), i, o.v, w)
          <==> o.v in KnownAt(code, i).consts && KnownAt(code, i).consts[o.v] == w {
        RegKnownExact(code, i, o.v, w);
      }
    }
    if o.Reg? && o.v in KnownAt(code, i).consts {
      assert WordKnown(code, Propagated(code), i, o, KnownAt(code, i).consts[o.v]);
    }
    if o.Imm? { assert WordKnown(code, Propagated(code), i, o, o.i); }
  }

  // The slots.

  lemma RewriteSlots(kn: Known, inst: Inst)
    ensures var inst' := Rewrite(kn, inst);
            && (Clears(inst') <==> Clears(inst))
            && (forall k :: Touches(inst', k) <==> Touches(inst, k))
            && (inst.StoreStack? <==> inst'.StoreStack?)
            && (inst.StoreStack? ==> inst' == StoreStack(inst.slot, ConstOf(kn.consts, inst.s)))
  {
  }

  lemma ConstSlotsNext(q: Code, c: nat, i: nat)
    requires c <= i < |q|
    ensures ConstSlots(q, c, i + 1) == ConstSlots(q, c, i) + if StoresConst(q[i]) then {q[i].slot} else {}
  {
  }

  lemma SubsetSize(a: set<int>, b: set<int>)
    requires a <= b
    ensures |a| <= |b| && (|a| == |b| ==> a == b)
  {
    assert b == a + (b - a) && a !! (b - a);
    assert |b| == |a| + |b - a|;
  }

  /** Which slots are in the table: those given a constant while it was not full. */
  ghost predicate KeysFit(q: Code, c: nat, i: nat, keys: set<int>)
    requires i <= |q|
  {
    && keys <= ConstSlots(q, c, i) && |keys| <= 64 && (|keys| < 64 ==> keys == ConstSlots(q, c, i))
    && forall k :: k in keys <==> Entered(q, c, i, k)
  }

  ghost predicate TableFits(q: Code, i: nat, t: map<int, Option<Word>>)
    requires i <= |q|
  {
    KeysFit(q, Region(q, i), i, t.Keys)
  }

  lemma EnteredNext(q: Code, c: nat, i: nat, k: int)
    requires c <= i < |q|
    ensures Entered(q, c, i + 1, k)
       <==> Entered(q, c, i, k) || (StoresConst(q[i]) && q[i].slot == k && |ConstSlots(q, c, i)| < 64)
  {
    hide ConstSlots;
  }

  lemma KeysStep(q: Code, c: nat, i: nat, keys: set<int>, keys': set<int>)
    requires c <= i < |q| && KeysFit(q, c, i, keys)
    requires StoresConst(q[i]) ==>
               keys' == if q[i].slot in keys || |keys| < 64 then keys + {q[i].slot} else keys
    requires !StoresConst(q[i]) ==> keys' == keys
    ensures KeysFit(q, c, i + 1, keys')
  {
    hide Entered, ConstSlots;
    ConstSlotsNext(q, c, i);
    var all := ConstSlots(q, c, i);
    forall k ensures Entered(q, c, i + 1, k)
        <==> k in keys || (StoresConst(q[i]) && q[i].slot == k && |all| < 64) {
      EnteredNext(q, c, i, k);
    }
    if StoresConst(q[i]) {
      KeysNext(keys, all, q[i].slot);
      KeysFitFrom(q, c, i + 1, keys', all + {q[i].slot});
    } else {
      KeysFitFrom(q, c, i + 1, keys', all);
    }
  }

  lemma KeysFitFrom(q: Code, c: nat, i: nat, keys: set<int>, all: set<int>)
    requires i <= |q| && all == ConstSlots(q, c, i)
    requires keys <= all && |keys| <= 64 && (|keys| < 64 ==> keys == all)
    requires forall k :: k in keys <==> Entered(q, c, i, k)
    ensures KeysFit(q, c, i, keys)
  {
  }

  lemma FitsNext(q: Code, i: nat, t: map<int, Option<Word>>, t': map<int, Option<Word>>)
    requires i < |q| && TableFits(q, i, t) && !Clears(q[i])
    requires StoresConst(q[i]) ==> t'.Keys == if q[i].slot in t || |t| < 64 then t.Keys + {q[i].slot} else t.Keys
    requires !StoresConst(q[i]) ==> t'.Keys == t.Keys
    ensures TableFits(q, i + 1, t')
  {
    assert Region(q, i + 1) == Region(q, i);
    hide KeysFit, Region, StoresConst;
    assert |t| == |t.Keys|;
    KeysStep(q, Region(q, i), i, t.Keys, t'.Keys);
  }

  lemma KeysNext(a: set<int>, all: set<int>, s: int)
    requires a <= all && |a| <= 64 && (|a| < 64 ==> a == all)
    ensures var b := if s in a || |a| < 64 then a + {s} else a;
            && b <= all + {s} && |b| <= 64 && (|b| < 64 ==> b == all + {s})
            && (forall k :: k in b <==> k in a || (s == k && |all| < 64))
  {
    SubsetSize(a, all);
    if s in a { assert a + {s} == a; }
  }

  lemma FitsEmpty(q: Code, i: nat)
    requires i <= |q| && Region(q, i) == i
    ensures TableFits(q, i, map[])
  {
    assert ConstSlots(q, i, i) == {};
  }

  lemma TableStep(q: Code, i: nat, kn: Known, inst: Inst)
    requires i < |q| && TableFits(q, i, kn.stack) && q[i] == Rewrite(kn, inst)
    ensures TableFits(q, i + 1, StackBehind(kn, inst))
  {
    RewriteSlots(kn, inst);
    hide Rewrite, TableFits, ConstOf;
    if Clears(inst) {
      assert Region(q, i + 1) == i + 1;
      FitsEmpty(q, i + 1);
    } else {
      KeysBehind(kn, inst, q[i]);
      hide StackBehind;
      FitsNext(q, i, kn.stack, StackBehind(kn, inst));
    }
  }

  lemma NothingKnown(code: Code)
    ensures KnownAt(code, 0).stack == map[] && Region(Propagated(code), 0) == 0
  {
  }

  lemma {:induction false} TableExact(code: Code, i: nat)
    requires i <= |code|
    ensures TableFits(Propagated(code), i, KnownAt(code, i).stack)
  {
    hide *;
    if i == 0 {
      NothingKnown(code);
      FitsEmpty(Propagated(code), 0);
    } else {
      TableExact(code, i - 1);
      StackNext(code, i - 1);
      PropagatedIs(code, i - 1);
      TableStep(Propagated(code), i - 1, KnownAt(code, i - 1), code[i - 1]);
    }
  }

  lemma KeysBehind(kn: Known, inst: Inst, inst': Inst)
    requires !Clears(inst) && (inst.StoreStack? <==> inst'.StoreStack?)
    requires inst.StoreStack? ==> inst' == StoreStack(inst.slot, ConstOf(kn.consts, inst.s))
    ensures var t, t' := kn.stack, StackBehind(kn, inst);
            && (StoresConst(inst') ==> t'.Keys == if inst'.slot in t || |t| < 64 then t.Keys + {inst'.slot} else t.Keys)
            && (!StoresConst(inst') ==> t'.Keys == t.Keys)
  {
    hide ConstOf;
  }

  /** What one instruction does to what is known of a slot. */
  lemma LookupBehind(kn: Known, inst: Inst, k: int)
    ensures var inst' := Rewrite(kn, inst);
            Lookup(StackBehind(kn, inst), k)
            == if Clears(inst) then None
               else if Touches(inst, k) then
                 (if StoresConst(inst') && (k in kn.stack || |kn.stack| < 64) then Some(inst'.s.i) else None)
               else Lookup(kn.stack, k)
  {
  }

  lemma SlotKnownNext(q: Code, i: nat, k: int, w: Word)
    requires i < |q| && !Clears(q[i])
    ensures SlotKnown(q, i + 1, k, w) <==>
            if Touches(q[i], k) then q[i] == StoreStack(k, Imm(w)) && Entered(q, Region(q, i), i + 1, k)
            else SlotKnown(q, i, k, w)
  {
    hide Entered;
    var c := Region(q, i);
    assert Region(q, i + 1) == c;
    if Touches(q[i], k) {
      if q[i] == StoreStack(k, Imm(w)) && Entered(q, c, i + 1, k) { assert SlotKnown(q, i + 1, k, w); }
    } else if SlotKnown(q, i + 1, k, w) {
      var j: nat :| c <= j < i + 1 && q[j] == StoreStack(k, Imm(w)) && Entered(q, c, j + 1, k)
                    && forall m :: j < m < i + 1 ==> !Touches(q[m], k);
      assert j < i;
    }
  }

  lemma SlotStep(q: Code, i: nat, kn: Known, inst: Inst, k: int, w: Word)
    requires i < |q| && TableFits(q, i, kn.stack) && q[i] == Rewrite(kn, inst)
    requires SlotKnown(q, i, k, w) <==> Lookup(kn.stack, k) == Some(w)
    ensures SlotKnown(q, i + 1, k, w) <==> Lookup(StackBehind(kn, inst), k) == Some(w)
  {
    RewriteSlots(kn, inst);
    LookupBehind(kn, inst, k);
    hide Rewrite, StackBehind, ConstOf, Lookup, TableFits;
    if Clears(inst) {
      NotBehind(q, i, k, w);
    } else {
      SlotKnownNext(q, i, k, w);
      if StoresConst(q[i]) && q[i].slot == k { EntryKnown(q, i, kn.stack, k); }
      hide SlotKnown, Entered, Region;
    }
  }

  lemma NotBehind(q: Code, i: nat, k: int, w: Word)
    requires i < |q| && Clears(q[i])
    ensures !SlotKnown(q, i + 1, k, w)
  {
    assert Region(q, i + 1) == i + 1;
  }

  lemma NotAtStart(q: Code, k: int, w: Word)
    ensures !SlotKnown(q, 0, k, w)
  {
  }

  lemma {:induction false} SlotKnownExact(code: Code, i: nat, k: int, w: Word)
    requires i <= |code|
    ensures SlotKnown(Propagated(code), i, k, w) <==> Lookup(KnownAt(code, i).stack, k) == Some(w)
  {
    hide *;
    if i == 0 {
      NothingKnown(code);
      NotAtStart(Propagated(code), k, w);
      NotInEmpty(k);
    } else {
      SlotKnownExact(code, i - 1, k, w);
      StackNext(code, i - 1);
      PropagatedIs(code, i - 1);
      TableExact(code, i - 1);
      SlotStep(Propagated(code), i - 1, KnownAt(code, i - 1), code[i - 1], k, w);
    }
  }

  lemma NotInEmpty(k: int)
    ensures Lookup(map[], k) == None
  {
  }

  lemma EntryKnown(q: Code, i: nat, t: map<int, Option<Word>>, k: int)
    requires i < |q| && TableFits(q, i, t) && !Clears(q[i]) && StoresConst(q[i]) && q[i].slot == k
    ensures Entered(q, Region(q, i), i + 1, k) <==> k in t || |t| < 64
  {
    var c := Region(q, i);
    EnteredNext(q, c, i, k);
    assert |t| == |t.Keys|;
    hide Entered, Region;
    SubsetSize(t.Keys, ConstSlots(q, c, i));
  }

  // ----- the list as a whole -----

  lemma AluFolds(op: BinOp, d: nat, x: Word, y: Word, inst: Inst)
    requires inst == if Fold(op, x, y).Some? then Const(d, Fold(op, x, y).value) else Bin(op, d, Imm(x), Imm(y))
    ensures IsFolded(op, d, x, y, inst)
  {
    hide Alu, Means, Wrap, TruncDiv, TruncMod;
    AluMeans(op, x, y);
    FoldsUnless(op, x, y);
    if !Stops(op, x, y) { FoldIsAlu(op, x, y); }
  }

  lemma FoldsUnless(op: BinOp, x: Word, y: Word)
    ensures Fold(op, x, y).None? <==> (op.Div? || op.Mod?) && y == 0
  {
    hide Wrap, TruncDiv, TruncMod, Bitwise, ShiftLeft, ShiftRight;
  }

  lemma ArgsBecome(code: Code, i: nat, os: seq<Opnd>)
    requires SingleDefinitions(code) && i <= |code|
    ensures var os' := ConstsOf(KnownAt(code, i).consts, os);
            forall j :: 0 <= j < |os| ==> Becomes(code, Propagated(code), i, os[j], os'[j])
  {
    hide KnownAt, Propagated, Becomes, SingleDefinitions;
    forall j | 0 <= j < |os|
      ensures Becomes(code, Propagated(code), i, os[j], ConstsOf(KnownAt(code, i).consts, os)[j])
    {
      ConstsOfEach(KnownAt(code, i).consts, os, j);
      OperandExact(code, i, os[j]);
    }
  }

  lemma {:induction false} ConstsOfEach(consts: map<nat, Word>, os: seq<Opnd>, j: nat)
    requires j < |os|
    ensures ConstsOf(consts, os)[j] == ConstOf(consts, os[j])
  {
    if j > 0 { ConstsOfEach(consts, os[1..], j - 1); }
  }

  lemma BinBecomes(code: Code, q: Code, i: nat, a': Opnd, b': Opnd)
    requires |q| == |code| && i < |code| && code[i].Bin?
    requires Becomes(code, q, i, code[i].a, a') && Becomes(code, q, i, code[i].b, b')
    requires forall w: Word :: WordKnown(code, q, i, code[i].a, w) <==> a' == Imm(w)
    requires forall w: Word :: WordKnown(code, q, i, code[i].b, w) <==> b' == Imm(w)
    requires if a'.Imm? && b'.Imm? then IsFolded(code[i].op, code[i].d, a'.i, b'.i, q[i])
             else q[i] == Bin(code[i].op, code[i].d, a', b')
    ensures FoldsAt(code, q, i)
  {
    hide SlotKnown, WordKnown, Becomes, IsFolded;
    if a'.Imm? && b'.Imm? {
      assert WordKnown(code, q, i, code[i].a, a'.i) && WordKnown(code, q, i, code[i].b, b'.i);
    }
  }

  lemma BinRewritten(kn: Known, inst: Inst)
    requires inst.Bin?
    ensures var a, b := ConstOf(kn.consts, inst.a), ConstOf(kn.consts, inst.b);
            && (!(a.Imm? && b.Imm?) ==> Rewrite(kn, inst) == Bin(inst.op, inst.d, a, b))
            && (a.Imm? && b.Imm? ==> IsFolded(inst.op, inst.d, a.i, b.i, Rewrite(kn, inst)))
  {
    hide Fold, IsFolded, ConstOf;
    var a, b := ConstOf(kn.consts, inst.a), ConstOf(kn.consts, inst.b);
    if a.Imm? && b.Imm? { AluFolds(inst.op, inst.d, a.i, b.i, Rewrite(kn, inst)); }
  }

  lemma BinFolds(code: Code, i: nat)
    requires SingleDefinitions(code) && i < |code| && code[i].Bin?
    ensures FoldsAt(code, Propagated(code), i)
  {
    hide *;
    var kn, q := KnownAt(code, i), Propagated(code);
    PropagatedIs(code, i);
    OperandExact(code, i, code[i].a);
    OperandExact(code, i, code[i].b);
    BinRewritten(kn, code[i]);
    BinBecomes(code, q, i, ConstOf(kn.consts, code[i].a), ConstOf(kn.consts, code[i].b));
  }

  lemma LoadBecomes(code: Code, q: Code, i: nat, found: Option<Word>)
    requires |q| == |code| && i < |code| && code[i].LoadStack?
    requires forall w: Word :: SlotKnown(q, i, code[i].slot, w) <==> found == Some(w)
    requires q[i] == if found.Some? then Const(code[i].d, found.value) else code[i]
    ensures FoldsAt(code, q, i)
  {
    hide SlotKnown, WordKnown, Becomes, IsFolded;
    if found.Some? { assert SlotKnown(q, i, code[i].slot, found.value); }
  }

  lemma LoadRewritten(kn: Known, inst: Inst)
    requires inst.LoadStack?
    ensures var w := Lookup(kn.stack, inst.slot);
            Rewrite(kn, inst) == if w.Some? then Const(inst.d, w.value) else inst
  {
  }

  lemma LoadFolds(code: Code, i: nat)
    requires i < |code| && code[i].LoadStack?
    ensures FoldsAt(code, Propagated(code), i)
  {
    hide *;
    var kn, q, k := KnownAt(code, i), Propagated(code), code[i].slot;
    PropagatedIs(code, i);
    LoadRewritten(kn, code[i]);
    forall w: Word ensures SlotKnown(q, i, k, w) <==> Lookup(kn.stack, k) == Some(w) {
      SlotKnownExact(code, i, k, w);
    }
    LoadBecomes(code, q, i, Lookup(kn.stack, k));
  }

  lemma OtherFolds(code: Code, i: nat)
    requires SingleDefinitions(code) && i < |code| && !code[i].Bin? && !code[i].LoadStack?
    ensures FoldsAt(code, Propagated(code), i)
  {
    var q := Propagated(code);
    PropagatedIs(code, i);
    forall o: Opnd
      ensures var o' := ConstOf(KnownAt(code, i).consts, o);
              && Becomes(code, q, i, o, o')
              && forall w :: WordKnown(code, q, i, o, w) <==> o' == Imm(w)
    {
      OperandExact(code, i, o);
    }
    if code[i].Call? { ArgsBecome(code, i, code[i].args); }
    hide KnownAt, Propagated, SingleDefinitions, WordKnown, Becomes, ConstOf, ConstsOf;
  }

  /** The result is determined by its own beginning: every operand that is constant there stands as that
      constant, every operation on constants is its value, and nothing else is changed. */
  lemma PropagatedFolds(code: Code)
    requires SingleDefinitions(code)
    ensures Folds(code, Propagated(code))
  {
    hide KnownAt, Propagated, SingleDefinitions, FoldsAt;
    forall i | 0 <= i < |code| ensures FoldsAt(code, Propagated(code), i) {
      if code[i].Bin? {
        BinFolds(code, i);
      } else if code[i].LoadStack? {
        LoadFolds(code, i);
      } else {
        OtherFolds(code, i);
      }
    }
  }

  /** No operation on two constants is left but a division by zero. */
  lemma NoneLeft(code: Code, q: Code, i: nat)
    requires Folds(code, q) && i < |q| && q[i].Bin? && q[i].a.Imm? && q[i].b.Imm?
    ensures (q[i].op.Div? || q[i].op.Mod?) && q[i].b == Imm(0)
  {
    hide WordKnown, IsFolded;
    assert FoldsAt(code, q, i) && code[i].Bin?;
    var Bin(op, d, a, b) := code[i];
    if x, y :| WordKnown(code, q, i, a, x) && WordKnown(code, q, i, b, y) {
      FoldedLeft(op, d, x, y, q[i]);
    } else {
      NotKnown(code, q, i, a, q[i].a);
      NotKnown(code, q, i, b, q[i].b);
    }
  }

  lemma FoldedLeft(op: BinOp, d: nat, x: Word, y: Word, inst: Inst)
    requires IsFolded(op, d, x, y, inst) && inst.Bin?
    ensures inst == Bin(op, d, Imm(x), Imm(y)) && (op.Div? || op.Mod?) && y == 0
  {
  }

  lemma NotKnown(code: Code, q: Code, i: nat, o: Opnd, o': Opnd)
    requires |q| == |code| && Becomes(code, q, i, o, o') && o'.Imm?
    ensures WordKnown(code, q, i, o, o'.i)
  {
    if forall w :: !WordKnown(code, q, i, o, w) { assert WordKnown(code, q, i, o', o'.i); }
  }

  /** A constant that is also the pointer of a store: the pass counts the store as a second definition, so the sum
      behind it is not folded. */
  lemma PointerNotFolded(d: nat, e: nat, c: Word)
    requires d != e
    ensures var code := [Const(d, c), Store(Reg(d), 0, Imm(0), 8), Bin(Add, e, Reg(d), Imm(1))];
            Propagated(code)[2] == code[2]
  {
    var code := [Const(d, c), Store(Reg(d), 0, Imm(0), 8), Bin(Add, e, Reg(d), Imm(1))];
    var q := Propagated(code);
    PropagatedFolds(code);
    PropagatedIs(code, 1);
    hide Folds, Propagated, Rewrite, KnownAt, Means;
    assert FoldsAt(code, q, 2) && FoldsAt(code, q, 0);
    assert q[0] == Const(d, c) && q[1].Store? && q[1].p == Reg(d);
    forall w ensures !WordKnown(code, q, 2, Reg(d), w) {
      forall j: nat ensures !(j < 2 && SetFor(code, q, j, d, w)) { }
    }
    assert Becomes(code, q, 2, Reg(d), q[2].a) && Becomes(code, q, 2, Imm(1), q[2].b);
    assert WordKnown(code, q, 2, Imm(1), 1);
  }
}
