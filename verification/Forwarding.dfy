/** Store-to-load forwarding (`opt_store_load_forwarding`). */
module Forwarding {
  import opened Word64
  import opened IR
  import opened Simulation
  import opened LoweredForm
  import opened Lockstep
  import opened Function

  /** What each stack slot is known to hold; only valid entries are in the table. */
  type Table = map<int, Opnd>

  function Forget(t: Table, slots: set<int>): Table {
    t - slots
  }

  function ForgetReg(t: Table, d: nat): Table {
    map k | k in t && t[k] != Reg(d) :: t[k]
  }

  /** The table behind `inst`. A stored argument leaves it alone, and so does a load. */
  function Update(t: Table, taken: set<int>, inst: Inst): Table {
    match inst
    case Mark(_) => map[]
    case Call(_, _, _, _) => map[]
    case Store(_, _, _, _) => Forget(t, taken)
    case StoreStack(k, s) => t[k := s]
    case LoadStack(_, _) => t
    case _ => if Def(inst).Some? then ForgetReg(t, Def(inst).value) else t
  }

  ghost function TableAt(code: Code, i: nat): Table
    requires i <= |code|
  {
    if i == 0 then map[] else Update(TableAt(code, i - 1), Taken(code), code[i - 1])
  }

  function Forward(t: Table, inst: Inst): Inst {
    if inst.LoadStack? && inst.slot in t then
      match t[inst.slot]
      case Imm(c) => Const(inst.d, c)
      case Reg(v) => Mov(inst.d, Reg(v))
    else inst
  }

  ghost function Forwarded(code: Code): (q: Code)
    ensures |q| == |code|
  {
    seq(|code|, i requires 0 <= i < |code| => Forward(TableAt(code, i), code[i]))
  }

  /** The list once the first `i` instructions have been visited. */
  ghost function ForwardedTo(code: Code, i: nat): (q: Code)
    requires i <= |code|
  {
    Forwarded(code)[..i] + code[i..]
  }

  lemma ForwardedNext(code: Code, i: nat)
    requires i < |code|
    ensures var inst := Forward(TableAt(code, i), code[i]);
            && ForwardedTo(code, i)[i] == code[i]
            && ForwardedTo(code, i + 1) == ForwardedTo(code, i)[i := inst]
    ensures TableAt(code, i + 1) == Update(TableAt(code, i), Taken(code), code[i])
  {
  }

  lemma ForwardChanges(t: Table, inst: Inst)
    ensures Forward(t, inst) != inst <==> inst.LoadStack? && inst.slot in t
  {
  }

  method StoreLoadForwarding(fn: IRFunction) returns (changed: bool)
    modifies fn
    ensures fn.insts == Forwarded(old(fn.insts)) && Forwards(old(fn.insts), fn.insts)
    ensures !changed ==> fn.insts == old(fn.insts)
  {
    ghost var code := fn.insts;
    var taken := TakenSlots(fn.insts);
    var table: Table := map[];
    changed := false;
    var n := |fn.insts|;
    assert ForwardedTo(code, 0) == code;
    hide Update, Forward, ForwardedTo, Forwarded, Taken;
    for i := 0 to n
      invariant |code| == n == |fn.insts| && table == TableAt(code, i) && fn.insts == ForwardedTo(code, i)
      invariant !changed ==> fn.insts == code
    {
      ForwardedNext(code, i);
      var inst := fn.insts[i];
      ForwardChanges(table, inst);
      if inst.LoadStack? && inst.slot in table {
        fn.Replace(i, Forward(table, inst));
        changed := true;
      }
      table := Update(table, taken, inst);
    }
    ForwardedAll(code);
    hide Forwards;
    ForwardedForwards(code);
  }

  lemma ForwardedAll(code: Code)
    ensures ForwardedTo(code, |code|) == Forwarded(code)
  {
  }

  // ----- the table records what stores wrote -----

  /** An entry was written by a store behind the last mark. */
  lemma {:induction false} EntryOrigin(code: Code, i: nat, k: int) returns (j: nat)
    requires i <= |code| && k in TableAt(code, i)
    ensures j < i && code[j] == StoreStack(k, TableAt(code, i)[k])
    ensures forall m :: j < m < i ==> !code[m].Mark?
  {
    var inst := code[i - 1];
    if inst.StoreStack? && inst.slot == k {
      j := i - 1;
    } else {
      j := EntryOrigin(code, i - 1, k);
    }
  }

  /** While arguments are stored the table is empty. */
  lemma {:induction false} EmptyAmongArguments(code: Code, i: nat)
    requires i <= |code| && forall j :: 0 <= j < i ==> code[j].StoreArg?
    ensures TableAt(code, i) == map[]
  {
    if i > 0 { EmptyAmongArguments(code, i - 1); }
  }

  /** The register an entry names is allowed as an operand at `i`. */
  lemma EntryUse(code: Code, i: nat, k: int)
    requires Lowered(code) && i < |code| && k in TableAt(code, i) && TableAt(code, i)[k].Reg?
    ensures UseOK(code, TableAt(code, i)[k].v, i)
  {
    var v := TableAt(code, i)[k].v;
    var j := EntryOrigin(code, i, k);
    assert v in Uses(code[j]);
    LoweredMarks(code);
    assert UseOK(code, v, j) by { hide UseOK; }
    hide UseOK, TableAt, Uses;
    assert forall a :: 0 <= a < |code| && IsJump(code[a]) ==> code[Find(code, code[a].to)].Mark?;
    UseCarries(code, v, j, i);
  }

  // ----- the table tells the truth in every run -----

  ghost predicate Truthful(t: Table, d: Data) {
    forall k :: k in t ==> Val(d.regs, t[k]) == Some(Slot(d.slots, k))
  }

  ghost function Knowledge(code: Code): Fact {
    (i: nat, d: Data) => i <= |code| ==> Truthful(TableAt(code, i), d)
  }

  lemma EntryKept(env: Env, taken: set<int>, t: Table, inst: Inst, d: Data, k: int)
    requires AliasWithin(env, taken) && Truthful(t, d) && Exec(env, inst, d).Next?
    requires k in Update(t, taken, inst) && !inst.StoreArg? && (inst.LoadStack? ==> t[k] != Reg(inst.d))
    ensures Val(Exec(env, inst, d).data.regs, Update(t, taken, inst)[k]) == Some(Slot(Exec(env, inst, d).data.slots, k))
  {
    hide Alu;
  }

  lemma TruthKept(env: Env, code: Code, i: nat, d: Data)
    requires Lowered(code) && AliasWithin(env, Taken(code)) && i < |code|
    requires Truthful(TableAt(code, i), d)
    requires Exec(env, code[i], d).Next?
    ensures Truthful(TableAt(code, i + 1), Exec(env, code[i], d).data)
  {
    var t := TableAt(code, i);
    assert TableAt(code, i + 1) == Update(t, Taken(code), code[i]);
    hide Exec, AliasWithin, Taken, TableAt, Lowered;
    forall k | k in Update(t, Taken(code), code[i])
      ensures Val(Exec(env, code[i], d).data.regs, Update(t, Taken(code), code[i])[k])
           == Some(Slot(Exec(env, code[i], d).data.slots, k))
    {
      if code[i].StoreArg? {
        NoArgumentBehind(code, i);
      } else {
        if code[i].LoadStack? && t[k] == Reg(code[i].d) { NotRedefined(code, i, k); }
        EntryKept(env, Taken(code), t, code[i], d, k);
      }
    }
  }

  lemma NoArgumentBehind(code: Code, i: nat)
    requires Lowered(code) && i < |code| && code[i].StoreArg?
    ensures Update(TableAt(code, i), Taken(code), code[i]) == map[]
  {
    EmptyAmongArguments(code, i);
  }

  lemma NotRedefined(code: Code, i: nat, k: int)
    requires Lowered(code) && i < |code| && code[i].LoadStack? && k in TableAt(code, i)
    ensures TableAt(code, i)[k] != Reg(code[i].d)
  {
    hide TableAt;
    if TableAt(code, i)[k] == Reg(code[i].d) {
      EntryUse(code, i, k);
      assert false;
    }
  }

  /** The replaced instruction does what the load would have done. */
  lemma ForwardSame(env: Env, t: Table, inst: Inst, d: Data)
    requires Truthful(t, d)
    ensures Exec(env, Forward(t, inst), d) == Exec(env, inst, d)
  {
  }

  /** Nothing is believed just behind a mark. */
  lemma EmptyBehindMark(code: Code, b: nat)
    requires b < |code| && code[b].Mark?
    ensures TableAt(code, b + 1) == map[]
  {
  }

  lemma ForwardingStep(env: Env, code: Code, i: nat, d: Data)
    requires i < |code| && Truthful(TableAt(code, i), d)
    requires Exec(env, code[i], d).Next? ==> Truthful(TableAt(code, i + 1), Exec(env, code[i], d).data)
    ensures KeepsStep(env, code, Forwarded(code), Knowledge(code), i, d)
  {
    ForwardSame(env, TableAt(code, i), code[i], d);
    var o := Exec(env, code[i], d);
    if o.Goto? {
      var b := Find(code, o.to);
      if b < |code| { EmptyBehindMark(code, b); }
    }
  }

  lemma ForwardedControl(code: Code)
    ensures SameControl(code, Forwarded(code))
  {
  }

  /** Every load that was replaced yields, in every run, what the slot holds. */
  lemma ForwardingPreserves(env: Env, code: Code)
    requires Lowered(code) && AliasWithin(env, Taken(code))
    ensures Preserves(env, code, Forwarded(code))
  {
    ForwardedControl(code);
    forall i: nat, d: Data | i < |code| && Knowledge(code)(i, d)
      ensures KeepsStep(env, code, Forwarded(code), Knowledge(code), i, d)
    {
      if Exec(env, code[i], d).Next? { TruthKept(env, code, i, d); }
      ForwardingStep(env, code, i, d);
    }
    forall slots: Slots ensures Knowledge(code)(0, Start(slots).data) {
      assert TableAt(code, 0) == map[];
    }
    LockstepPreserves(env, code, Forwarded(code), Knowledge(code));
  }

  lemma ForwardedInst(code: Code, i: nat)
    requires Lowered(code) && i < |code|
    ensures var inst := Forwarded(code)[i];
            && (inst == code[i] || (code[i].LoadStack? && Def(inst) == Def(code[i])))
            && (inst != code[i] ==> inst.Const? || inst.Mov?)
            && (forall v :: v in Uses(inst) ==> UseOK(code, v, i))
  {
    if Forwarded(code)[i] != code[i] && TableAt(code, i)[code[i].slot].Reg? { EntryUse(code, i, code[i].slot); }
  }

  lemma ForwardingKeepsForm(code: Code)
    requires Lowered(code)
    ensures Lowered(Forwarded(code)) && NoNew(code, Forwarded(code)) && Taken(Forwarded(code)) == Taken(code)
  {
    var q := Forwarded(code);
    forall i | 0 <= i < |code|
      ensures Reshapes(code[i], q[i])
      ensures forall v :: v in Uses(q[i]) ==> UseOK(code, v, i)
      ensures code[i].AddrStack? <==> q[i].AddrStack?
      ensures code[i].AddrStack? ==> q[i] == code[i]
    {
      ForwardedInst(code, i);
    }
    ForwardedControl(code);
    RewritingKeepsForm(code, q);
  }

  // ----- which loads are replaced -----

  /** A store of `s` to slot `k` at `j` is what a load before `i` finds: no mark, call or other store to the slot
      stands between, no store through a pointer if the address of the slot is taken, and nothing but a load from
      a slot defines the register anew. */
  ghost predicate Finds(code: Code, j: nat, i: nat, k: int, s: Opnd) {
    && j < i <= |code| && code[j] == StoreStack(k, s)
    && forall m :: j < m < i ==>
         && !code[m].Mark? && !code[m].Call? && !(code[m].StoreStack? && code[m].slot == k)
         && (code[m].Store? ==> forall a :: 0 <= a < |code| && code[a].AddrStack? ==> code[a].slot != k)
         && (s.Reg? && Def(code[m]) == Some(s.v) ==> code[m].LoadStack?)
  }

  /** Exactly the loads that find a store are replaced, by what was stored. */
  ghost predicate Forwards(code: Code, q: Code) {
    && |q| == |code|
    && forall i :: 0 <= i < |code| ==>
         && (!code[i].LoadStack? ==> q[i] == code[i])
         && (code[i].LoadStack? && (forall j: nat, s :: !Finds(code, j, i, code[i].slot, s)) ==> q[i] == code[i])
         && (code[i].LoadStack? ==> forall j: nat, s :: Finds(code, j, i, code[i].slot, s) ==>
               q[i] == if s.Imm? then Const(code[i].d, s.i) else Mov(code[i].d, s))
  }

  lemma FindsNext(code: Code, j: nat, i: nat, k: int, s: Opnd)
    requires i < |code|
    ensures Finds(code, j, i + 1, k, s) <==>
            if j == i then code[i] == StoreStack(k, s)
            else Finds(code, j, i, k, s) && !code[i].Mark? && !code[i].Call?
                 && !(code[i].StoreStack? && code[i].slot == k) && (code[i].Store? ==> k !in Taken(code))
                 && (s.Reg? && Def(code[i]) == Some(s.v) ==> code[i].LoadStack?)
  {
    assert k !in Taken(code) <==> forall a :: 0 <= a < |code| && code[a].AddrStack? ==> code[a].slot != k;
    hide Taken, Def;
    assert Finds(code, j, i + 1, k, s) ==> j <= i;
  }

  lemma UpdateEntry(t: Table, taken: set<int>, inst: Inst, k: int, s: Opnd)
    ensures var t' := Update(t, taken, inst);
            (k in t' && t'[k] == s) <==>
            || inst == StoreStack(k, s)
            || (k in t && t[k] == s && !inst.Mark? && !inst.Call? && !(inst.StoreStack? && inst.slot == k)
                && (inst.Store? ==> k !in taken) && (s.Reg? && Def(inst) == Some(s.v) ==> inst.LoadStack?))
  {
  }

  /** The table holds what a load would find. */
  lemma {:induction false} TableExact(code: Code, i: nat, k: int, s: Opnd)
    requires i <= |code|
    ensures k in TableAt(code, i) && TableAt(code, i)[k] == s <==> exists j: nat :: Finds(code, j, i, k, s)
  {
    if i > 0 {
      TableExact(code, i - 1, k, s);
      UpdateEntry(TableAt(code, i - 1), Taken(code), code[i - 1], k, s);
      hide Finds, Update, Taken, Def;
      var h := i - 1;
      if j: nat :| Finds(code, j, h, k, s) { FindsNext(code, j, h, k, s); }
      if j: nat :| Finds(code, j, i, k, s) { FindsNext(code, j, h, k, s); }
      FindsNext(code, h, h, k, s);
    } else {
      assert forall j: nat :: !Finds(code, j, 0, k, s);
    }
  }

  lemma LoadForwarded(code: Code, i: nat)
    requires i < |code| && code[i].LoadStack?
    ensures var q, k := Forwarded(code)[i], code[i].slot;
            && ((forall j: nat, s :: !Finds(code, j, i, k, s)) ==> q == code[i])
            && forall j: nat, s :: Finds(code, j, i, k, s) ==>
                 q == if s.Imm? then Const(code[i].d, s.i) else Mov(code[i].d, s)
  {
    hide TableAt, Finds;
    var k, t := code[i].slot, TableAt(code, i);
    if k in t { TableExact(code, i, k, t[k]); }
    forall j: nat, s | Finds(code, j, i, k, s) ensures k in t && t[k] == s { TableExact(code, i, k, s); }
  }

  lemma ForwardedForwards(code: Code)
    ensures Forwards(code, Forwarded(code))
  {
    hide TableAt, Finds;
    forall i | 0 <= i < |code| && code[i].LoadStack?
      ensures var q, k := Forwarded(code)[i], code[i].slot;
              && ((forall j: nat, s :: !Finds(code, j, i, k, s)) ==> q == code[i])
              && forall j: nat, s :: Finds(code, j, i, k, s) ==>
                   q == if s.Imm? then Const(code[i].d, s.i) else Mov(code[i].d, s)
    {
      LoadForwarded(code, i);
    }
  }
}
