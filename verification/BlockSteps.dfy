/** The block of every instruction that falls through keeps the two machines related. */
module BlockSteps {
  import opened Word64
  import opened IR
  import opened LoweredForm
  import opened Liveness
  import LinearScan
  import opened RegAlloc
  import opened X86
  import opened CodeGen
  import opened Residence
  import opened Selection

  /** Running `xs` where the IR machine stands before instruction `k` leads to where it stands behind it, with
      data `d`. */
  ghost predicate Arrives(u: Compilation, k: nat, m: Machine, xs: seq<Asm>, d: Data) {
    RunAll(u.w, xs, m).Some? && Related(u, k + 1, d, RunAll(u.w, xs, m).value)
  }

  // ----- writing a result -----

  lemma StoreRuns(u: Compilation, m: Machine, src: Gpr, dst: nat, w: Word)
    requires Scratch(src) && src in m.gpr && m.gpr[src] == w
    requires RegOf(u.a, dst) == NONE ==> m.bp == 0 && InFrame(m, OffsetOf(u.a, u.w.base, dst))
    ensures RunAll(u.w, StoreFrom(u.a, u.w.base, src, dst), m) == Some(Commit(u, m, dst, w))
  {
    CommitDoes(u, m, src, dst, w);
    var r := RegOf(u.a, dst);
    hide Do, RunAll, Commit, OffsetOf, RegOf;
    RunOne(u.w, if r == NONE then StoreFrame(src, OffsetOf(u.a, u.w.base, dst)) else Move(src, PHYS[r]), m);
  }

  lemma CommitDoes(u: Compilation, m: Machine, src: Gpr, dst: nat, w: Word)
    requires Scratch(src) && src in m.gpr && m.gpr[src] == w
    requires RegOf(u.a, dst) == NONE ==> m.bp == 0 && InFrame(m, OffsetOf(u.a, u.w.base, dst))
    ensures var r := RegOf(u.a, dst);
            && (r != NONE ==> PHYS[r] != src && Do(u.w, Move(src, PHYS[r]), m) == Some(Commit(u, m, dst, w)))
            && (r == NONE ==> Do(u.w, StoreFrame(src, OffsetOf(u.a, u.w.base, dst)), m) == Some(Commit(u, m, dst, w)))
  {
    if RegOf(u.a, dst) != NONE { PhysNotScratch(); }
    hide Put, OffsetOf, RegOf;
  }

  lemma Writable(u: Compilation, k: nat, dst: nat)
    requires Good(u) && k < |u.code| && Def(u.code[k]) == Some(dst)
    ensures RegOf(u.a, dst) == NONE ==> 0 <= OffsetOf(u.a, u.w.base, dst) + Size(u)
  {
    DefOccurs(u, k, dst);
    OccursInside(u, dst, k);
    LocationOf(u, dst);
  }

  lemma SettledFrame(u: Compilation, d: Data, m: Machine)
    requires Settled(u, d, m)
    ensures m.bp == 0 && m.sp + Size(u) == 0
  {
  }

  /** From a state ready for the result, storing it completes the step. */
  lemma StoreArrives(u: Compilation, k: nat, d: Data, m1: Machine, dst: nat, src: Gpr, w: Word)
    requires Good(u) && Ready(u, k, dst, d, m1)
    requires k < |u.code| && Def(u.code[k]) == Some(dst) && Follows(u.code, k, k + 1)
    requires Scratch(src) && src in m1.gpr && m1.gpr[src] == w
    ensures Arrives(u, k, m1, StoreFrom(u.a, u.w.base, src, dst), d.(regs := d.regs[dst := w]))
  {
    hide *;
    ReadyIs(u, k, dst, d, m1);
    SettledFrame(u, d, m1);
    Writable(u, k, dst);
    FrameAccess(m1, Size(u), OffsetOf(u.a, u.w.base, dst));
    StoreRuns(u, m1, src, dst, w);
    Commits(u, k, dst, d, m1, w);
    ArrivesIs(u, k, m1, StoreFrom(u.a, u.w.base, src, dst), d.(regs := d.regs[dst := w]));
  }

  lemma FrameAccess(m: Machine, size: nat, off: int)
    requires m.bp == 0 && m.sp + size == 0
    ensures InFrame(m, off) <==> 0 <= off + size
  {
  }

  lemma ArrivesIs(u: Compilation, k: nat, m: Machine, xs: seq<Asm>, d: Data)
    ensures Arrives(u, k, m, xs, d) <==> RunAll(u.w, xs, m).Some? && Related(u, k + 1, d, RunAll(u.w, xs, m).value)
  {
  }

  /** Computing into a scratch register and storing the result. */
  lemma Finishes(u: Compilation, k: nat, d: Data, m: Machine, dst: nat, xs: seq<Asm>, src: Gpr, w: Word)
    requires Good(u) && Related(u, k, d, m)
    requires k < |u.code| && Def(u.code[k]) == Some(dst) && Follows(u.code, k, k + 1)
    requires Computes(u, m, xs, src, w) && Scratch(src)
    ensures Arrives(u, k, m, xs + StoreFrom(u.a, u.w.base, src, dst), d.(regs := d.regs[dst := w]))
  {
    hide *;
    ComputesIs(u, m, xs, src, w);
    var m1 := RunAll(u.w, xs, m).value;
    ScratchedReady(u, k, dst, d, m, m1);
    StoreArrives(u, k, d, m1, dst, src, w);
    var ys := StoreFrom(u.a, u.w.base, src, dst);
    RunAppend(u.w, xs, ys, m);
    ArrivesIs(u, k, m1, ys, d.(regs := d.regs[dst := w]));
    ArrivesIs(u, k, m, xs + ys, d.(regs := d.regs[dst := w]));
  }

  /** One instruction that puts the result into the register of `dst`. */
  lemma WritesDirectly(u: Compilation, k: nat, d: Data, m: Machine, dst: nat, x: Asm, w: Word)
    requires Good(u) && Related(u, k, d, m)
    requires k < |u.code| && Def(u.code[k]) == Some(dst) && Follows(u.code, k, k + 1)
    requires RegOf(u.a, dst) != NONE && Gives(u.w, m, x, PHYS[RegOf(u.a, dst)], w)
    ensures Arrives(u, k, m, [x], d.(regs := d.regs[dst := w]))
  {
    var m2 := Do(u.w, x, m).value;
    var m1 := m.(flags := m2.flags);
    assert m2 == Commit(u, m1, dst, w);
    hide Good, Related, Do, Ready;
    ScratchedReady(u, k, dst, d, m, m1);
    Commits(u, k, dst, d, m1, w);
    RunOne(u.w, x, m);
  }

  lemma Moves(u: Compilation, k: nat, d: Data, m: Machine, dst: nat, s: Opnd, w: Word)
    requires Good(u) && Related(u, k, d, m)
    requires k < |u.code| && u.code[k] == Mov(dst, s) && Val(d.regs, s) == Some(w)
    ensures Arrives(u, k, m, Translated(u.a, u.w.base, u.code[k]), d.(regs := d.regs[dst := w]))
  {
    OperandReady(u, k, d, m, s);
    LoadComputes(u, m, s, RAX, w);
    var pd, ps := RegOf(u.a, dst), RegOfOperand(u.a, s);
    var xs := Translated(u.a, u.w.base, u.code[k]);
    hide Good, Related, Do, Ready, RunAll, Computes, Arrives;
    if pd != NONE && ps != NONE {
      assert s.Reg? && PHYS[ps] in m.gpr && m.gpr[PHYS[ps]] == w;
      if pd == ps {
        MoveNothing(u, k, d, m, dst, w);
      } else {
        MoveGives(u.w, m, PHYS[ps], PHYS[pd]);
        WritesDirectly(u, k, d, m, dst, Move(PHYS[ps], PHYS[pd]), w);
      }
    } else if pd != NONE && s.Imm? {
      ImmGives(u.w, m, w, PHYS[pd]);
      WritesDirectly(u, k, d, m, dst, MoveImm(w, PHYS[pd]), w);
    } else {
      Finishes(u, k, d, m, dst, LoadTo(u.a, u.w.base, s, RAX), RAX, w);
    }
  }

  /** A move between registers that share a location is no instruction at all. */
  lemma MoveNothing(u: Compilation, k: nat, d: Data, m: Machine, dst: nat, w: Word)
    requires Good(u) && Related(u, k, d, m)
    requires k < |u.code| && Def(u.code[k]) == Some(dst) && Follows(u.code, k, k + 1)
    requires RegOf(u.a, dst) != NONE && PHYS[RegOf(u.a, dst)] in m.gpr && m.gpr[PHYS[RegOf(u.a, dst)]] == w
    ensures Arrives(u, k, m, [], d.(regs := d.regs[dst := w]))
  {
    assert m.gpr == m.gpr[PHYS[RegOf(u.a, dst)] := w];
    assert m == Commit(u, m, dst, w);
    hide Good, Related, Ready;
    ScratchedReady(u, k, dst, d, m, m);
    Commits(u, k, dst, d, m, w);
    assert RunAll(u.w, [], m) == Some(m);
  }

  lemma ImmGives(w: World, m: Machine, c: Word, r: Gpr)
    ensures Gives(w, m, MoveImm(c, r), r, c) && (c == 0 ==> Gives(w, m, Clear(r), r, c))
  {
  }

  lemma Constants(u: Compilation, k: nat, d: Data, m: Machine, dst: nat, c: Word)
    requires Good(u) && Related(u, k, d, m)
    requires k < |u.code| && u.code[k] == Const(dst, c)
    ensures Arrives(u, k, m, Translated(u.a, u.w.base, u.code[k]), d.(regs := d.regs[dst := c]))
  {
    hide Good, Related, Do, Ready, RunAll, Computes, Arrives;
    LoadComputes(u, m, Imm(c), RAX, c);
    var r := RegOf(u.a, dst);
    if r == NONE {
      Finishes(u, k, d, m, dst, LoadTo(u.a, u.w.base, Imm(c), RAX), RAX, c);
    } else {
      ImmGives(u.w, m, c, PHYS[r]);
      WritesDirectly(u, k, d, m, dst, if c == 0 then Clear(PHYS[r]) else MoveImm(c, PHYS[r]), c);
    }
  }

  /** An instruction whose result goes straight into the register, or through rax. */
  lemma DirectArrives(u: Compilation, k: nat, d: Data, m: Machine, dst: nat, x: Gpr -> Asm, w: Word)
    requires Good(u) && Related(u, k, d, m)
    requires k < |u.code| && Def(u.code[k]) == Some(dst) && Follows(u.code, k, k + 1)
    requires forall r: Gpr :: Gives(u.w, m, x(r), r, w)
    ensures Arrives(u, k, m, Directly(u.a, u.w.base, dst, x), d.(regs := d.regs[dst := w]))
  {
    hide Good, Related, Do, Ready, RunAll, Computes, Arrives, Gives;
    var r := RegOf(u.a, dst);
    if r != NONE {
      WritesDirectly(u, k, d, m, dst, x(PHYS[r]), w);
    } else {
      SingleComputes(u, m, x(RAX), RAX, w);
      Finishes(u, k, d, m, dst, [x(RAX)], RAX, w);
    }
  }

  lemma SingleComputes(u: Compilation, m: Machine, x: Asm, r: Gpr, w: Word)
    requires Gives(u.w, m, x, r, w) && Scratch(r)
    ensures Computes(u, m, [x], r, w)
  {
    RunOne(u.w, x, m);
    LoadedScratched(m, Do(u.w, x, m).value, r, w);
  }

  lemma SlotRead(u: Compilation, d: Data, m: Machine, slot: int)
    requires Good(u) && Settled(u, d, m) && slot in u.w.cells
    ensures slot in m.stack && m.stack[slot] == Slot(d.slots, slot) && InFrame(m, slot)
  {
    assert slot in Locals(u.w, m.stack);
    FrameDisjoint(u.w.base, u.start, u.a);
  }

  lemma DirectGives(u: Compilation, m: Machine, slot: int, sym: nat, r: Gpr)
    requires m.bp == 0
    ensures Gives(u.w, m, LeaSymbol(sym, r), r, u.w.env.symbolAddress(sym))
    ensures Gives(u.w, m, LeaFrame(slot, r), r, u.w.env.slotAddress(slot))
    ensures slot in m.stack && InFrame(m, slot) ==> Gives(u.w, m, LoadFrame(slot, r), r, m.stack[slot])
  {
  }

  lemma AddressMeans(env: Env, code: Code, a: Allocation, base: nat, k: nat, d: Data, d': Data)
    requires k < |code| && (code[k].Symbol? || code[k].AddrStack? || code[k].LoadStack?)
        && Exec(env, code[k], d) == Next(d')
    ensures Def(code[k]) == Some(code[k].d) && Follows(code, k, k + 1)
    ensures var i := code[k];
            && (i.Symbol? ==>
                  && d' == d.(regs := d.regs[i.d := env.symbolAddress(i.sym)])
                  && Translated(a, base, i) == Directly(a, base, i.d, r => LeaSymbol(i.sym, r)))
            && (i.AddrStack? ==>
                  && d' == d.(regs := d.regs[i.d := env.slotAddress(i.slot)])
                  && Translated(a, base, i) == Directly(a, base, i.d, r => LeaFrame(i.slot, r)))
            && (i.LoadStack? ==>
                  && d' == d.(regs := d.regs[i.d := Slot(d.slots, i.slot)])
                  && Translated(a, base, i) == Directly(a, base, i.d, r => LoadFrame(i.slot, r)))
  {
    hide Slot, RegOf;
  }

  lemma SlotListed(u: Compilation, k: nat)
    requires Good(u) && k < |u.code| && SlotOf(u.code[k]).Some?
    ensures SlotOf(u.code[k]).value in u.w.cells
  {
    assert SlotIn(u.code[k], u.w.cells);
  }

  lemma LoadedSlot(code: Code, k: nat)
    requires k < |code| && (code[k].LoadStack? || code[k].StoreStack?)
    ensures SlotOf(code[k]) == Some(code[k].slot)
  {
  }

  lemma Addresses(u: Compilation, k: nat, d: Data, m: Machine, d': Data)
    requires Good(u) && Related(u, k, d, m)
    requires k < |u.code| && (u.code[k].Symbol? || u.code[k].AddrStack? || u.code[k].LoadStack?)
    requires Exec(u.w.env, u.code[k], d) == Next(d')
    ensures Arrives(u, k, m, Translated(u.a, u.w.base, u.code[k]), d')
  {
    hide *;
    RelatedIs(u, k, d, m);
    SettledFrame(u, d, m);
    AddressMeans(u.w.env, u.code, u.a, u.w.base, k, d, d');
    match u.code[k]
    case Symbol(dst, sym) =>
      forall r: Gpr ensures Gives(u.w, m, LeaSymbol(sym, r), r, u.w.env.symbolAddress(sym)) {
        DirectGives(u, m, 0, sym, r);
      }
      DirectArrives(u, k, d, m, dst, r => LeaSymbol(sym, r), u.w.env.symbolAddress(sym));
    case AddrStack(dst, slot) =>
      forall r: Gpr ensures Gives(u.w, m, LeaFrame(slot, r), r, u.w.env.slotAddress(slot)) {
        DirectGives(u, m, slot, 0, r);
      }
      DirectArrives(u, k, d, m, dst, r => LeaFrame(slot, r), u.w.env.slotAddress(slot));
    case LoadStack(dst, slot) =>
      LoadedSlot(u.code, k);
      SlotListed(u, k);
      SlotRead(u, d, m, slot);
      forall r: Gpr ensures Gives(u.w, m, LoadFrame(slot, r), r, m.stack[slot]) {
        DirectGives(u, m, slot, 0, r);
      }
      DirectArrives(u, k, d, m, dst, r => LoadFrame(slot, r), m.stack[slot]);
  }

  // ----- results computed through rax or rcx -----

  lemma AddrGlobalMeans(env: Env, code: Code, a: Allocation, base: nat, k: nat, d: Data, d': Data)
    requires k < |code| && code[k].AddrGlobal? && Exec(env, code[k], d) == Next(d')
    ensures Def(code[k]) == Some(code[k].d) && Follows(code, k, k + 1)
    ensures var i := code[k];
            && d' == d.(regs := d.regs[i.d := env.symbolAddress(i.sym)])
            && Translated(a, base, i) == [LeaSymbol(i.sym, RAX)] + StoreFrom(a, base, RAX, i.d)
  {
    hide StoreFrom;
  }

  lemma GlobalAddresses(u: Compilation, k: nat, d: Data, m: Machine, d': Data)
    requires Good(u) && Related(u, k, d, m) && k < |u.code| && u.code[k].AddrGlobal?
    requires Exec(u.w.env, u.code[k], d) == Next(d')
    ensures Arrives(u, k, m, Translated(u.a, u.w.base, u.code[k]), d')
  {
    hide *;
    var i := u.code[k];
    AddrGlobalMeans(u.w.env, u.code, u.a, u.w.base, k, d, d');
    RelatedIs(u, k, d, m);
    SettledFrame(u, d, m);
    ScratchNames();
    DirectGives(u, m, 0, i.sym, RAX);
    SingleComputes(u, m, LeaSymbol(i.sym, RAX), RAX, u.w.env.symbolAddress(i.sym));
    Finishes(u, k, d, m, i.d, [LeaSymbol(i.sym, RAX)], RAX, u.w.env.symbolAddress(i.sym));
  }

  lemma LoadSymRuns(u: Compilation, m: Machine, sym: nat, size: nat, uns: bool)
    ensures Computes(u, m, [LoadSym(sym, size, uns)], RAX, u.w.env.global(m.trace, sym, size, uns))
  {
    RunOne(u.w, LoadSym(sym, size, uns), m);
  }

  lemma AliasInCells(u: Compilation, p: Word)
    requires Good(u)
    ensures u.w.env.alias(p).Some? ==> u.w.env.alias(p).value in u.w.cells
  {
  }

  lemma LoadPtrDoes(w: World, d: Data, m: Machine, off: int, size: nat, uns: bool)
    requires RAX in m.gpr && m.trace == d.trace && Accessible(w.env, Wrap(m.gpr[RAX] as int + off))
    requires var k := w.env.alias(Wrap(m.gpr[RAX] as int + off));
             k.Some? ==> k.value in m.stack && m.stack[k.value] == Slot(d.slots, k.value)
    ensures Gives(w, m, LoadPtr(off, size, uns), RCX, LoadVia(w.env, d, Wrap(m.gpr[RAX] as int + off), size, uns))
  {
    hide Wrap, Slot;
  }

  lemma LoadPtrGives(u: Compilation, d: Data, m: Machine, off: int, size: nat, uns: bool)
    requires Good(u) && Settled(u, d, m) && RAX in m.gpr && Accessible(u.w.env, Wrap(m.gpr[RAX] as int + off))
    ensures Gives(u.w, m, LoadPtr(off, size, uns), RCX, LoadVia(u.w.env, d, Wrap(m.gpr[RAX] as int + off), size, uns))
  {
    hide *;
    var address := Wrap(m.gpr[RAX] as int + off);
    AliasInCells(u, address);
    SettledTrace(u, d, m);
    if u.w.env.alias(address).Some? { SlotRead(u, d, m, u.w.env.alias(address).value); }
    LoadPtrDoes(u.w, d, m, off, size, uns);
  }

  lemma LoadBlock(u: Compilation, k: nat, d: Data, d': Data)
    requires k < |u.code| && u.code[k].Load? && Exec(u.w.env, u.code[k], d) == Next(d')
    ensures var i := u.code[k];
            && Val(d.regs, i.p).Some? && Accessible(u.w.env, Wrap(Val(d.regs, i.p).value as int + i.off))
            && RegsOf(i.p) <= Uses(i) && Def(i) == Some(i.d) && Follows(u.code, k, k + 1)
            && d' == d.(regs := d.regs[i.d := LoadVia(u.w.env, d, Wrap(Val(d.regs, i.p).value as int + i.off), i.size,
                                                      i.uns)])
            && Translated(u.a, u.w.base, i) == (LoadTo(u.a, u.w.base, i.p, RAX) + [LoadPtr(i.off, i.size, i.uns)])
                + StoreFrom(u.a, u.w.base, RCX, i.d)
  {
    hide LoadVia, Wrap, LoadTo, StoreFrom;
  }

  lemma Pointers(u: Compilation, k: nat, d: Data, m: Machine, d': Data)
    requires Good(u) && Related(u, k, d, m) && k < |u.code| && u.code[k].Load?
    requires Exec(u.w.env, u.code[k], d) == Next(d')
    ensures Arrives(u, k, m, Translated(u.a, u.w.base, u.code[k]), d')
  {
    hide *;
    RelatedIs(u, k, d, m);
    ScratchNames();
    LoadBlock(u, k, d, d');
    var i := u.code[k];
    var address := Val(d.regs, i.p).value;
    var w := LoadVia(u.w.env, d, Wrap(address as int + i.off), i.size, i.uns);
    OperandReady(u, k, d, m, i.p);
    var xs := LoadTo(u.a, u.w.base, i.p, RAX);
    LoadComputes(u, m, i.p, RAX, address);
    ComputesIs(u, m, xs, RAX, address);
    var m1 := RunAll(u.w, xs, m).value;
    ScratchedSettled(u, d, m, m1);
    LoadPtrGives(u, d, m1, i.off, i.size, i.uns);
    Chain(u, m, xs, LoadPtr(i.off, i.size, i.uns), RCX, w, RAX, address);
    Finishes(u, k, d, m, i.d, xs + [LoadPtr(i.off, i.size, i.uns)], RCX, w);
  }

  lemma WidenGives(w: World, m: Machine, size: nat, uns: bool)
    requires RAX in m.gpr
    ensures Gives(w, m, Widen(size, uns), RAX, Extended(m.gpr[RAX], size, uns))
  {
    hide Extended;
  }

  lemma NoWidening(w: Word, size: nat, uns: bool)
    requires size !in {1, 2, 4}
    ensures Extended(w, size, uns) == w
  {
  }

  lemma CastMeans(env: Env, code: Code, a: Allocation, base: nat, k: nat, d: Data, d': Data)
    requires k < |code| && code[k].Cast? && CastsWiden(env) && Exec(env, code[k], d) == Next(d')
    ensures Def(code[k]) == Some(code[k].d) && Follows(code, k, k + 1)
    ensures var i := code[k];
            && RegsOf(i.s) <= Uses(i) && Val(d.regs, i.s).Some?
            && d' == d.(regs := d.regs[i.d := Extended(Val(d.regs, i.s).value, i.size, i.uns)])
            && Translated(a, base, i)
               == LoadTo(a, base, i.s, RAX) + (if i.size in {1, 2, 4} then [Widen(i.size, i.uns)] else [])
                 + StoreFrom(a, base, RAX, i.d)
  {
    hide LoadTo, StoreFrom, Extended;
  }

  lemma CastsGood(u: Compilation)
    requires Good(u)
    ensures CastsWiden(u.w.env)
  {
  }

  lemma Casts(u: Compilation, k: nat, d: Data, m: Machine, d': Data)
    requires Good(u) && Related(u, k, d, m) && k < |u.code| && u.code[k].Cast?
    requires Exec(u.w.env, u.code[k], d) == Next(d')
    ensures Arrives(u, k, m, Translated(u.a, u.w.base, u.code[k]), d')
  {
    hide *;
    var i := u.code[k];
    CastsGood(u);
    CastMeans(u.w.env, u.code, u.a, u.w.base, k, d, d');
    var from := Val(d.regs, i.s).value;
    var w := Extended(from, i.size, i.uns);
    OperandReady(u, k, d, m, i.s);
    ScratchNames();
    var xs := LoadTo(u.a, u.w.base, i.s, RAX);
    LoadComputes(u, m, i.s, RAX, from);
    if i.size in {1, 2, 4} {
      ComputesIs(u, m, xs, RAX, from);
      WidenGives(u.w, RunAll(u.w, xs, m).value, i.size, i.uns);
      Chain(u, m, xs, Widen(i.size, i.uns), RAX, w, RAX, from);
      Finishes(u, k, d, m, i.d, xs + [Widen(i.size, i.uns)], RAX, w);
    } else {
      NoWidening(from, i.size, i.uns);
      Finishes(u, k, d, m, i.d, xs, RAX, w);
      assert xs + [] == xs;
    }
  }

  lemma Results(u: Compilation, k: nat, d: Data, m: Machine, d': Data)
    requires Good(u) && Related(u, k, d, m) && k < |u.code| && u.code[k].Bin?
    requires Exec(u.w.env, u.code[k], d) == Next(d')
    ensures Arrives(u, k, m, Translated(u.a, u.w.base, u.code[k]), d')
  {
    hide *;
    var i := u.code[k];
    BinMeans(u.w.env, i, d, d');
    BinBlock(u.code, u.a, u.w.base, k);
    var a, b := Val(d.regs, i.a).value, Val(d.regs, i.b).value;
    OperandReady(u, k, d, m, i.a);
    OperandReady(u, k, d, m, i.b);
    ScratchNames();
    ArithmeticRuns(u, m, i.op, i.a, i.b, a, b);
    Finishes(u, k, d, m, i.d, Arithmetic(u.a, u.w.base, i.op, i.a, i.b), RAX, Alu(i.op, a, b).value);
  }

  lemma BinBlock(code: Code, a: Allocation, base: nat, k: nat)
    requires k < |code| && code[k].Bin?
    ensures Def(code[k]) == Some(code[k].d) && Follows(code, k, k + 1)
    ensures var i := code[k];
            && RegsOf(i.a) <= Uses(i) && RegsOf(i.b) <= Uses(i)
            && Translated(a, base, i) == Arithmetic(a, base, i.op, i.a, i.b) + StoreFrom(a, base, RAX, i.d)
  {
    hide Arithmetic, StoreFrom;
  }

  lemma GlobalLoads(u: Compilation, k: nat, d: Data, m: Machine, d': Data)
    requires Good(u) && Related(u, k, d, m) && k < |u.code| && u.code[k].LoadGlobal?
    requires Exec(u.w.env, u.code[k], d) == Next(d')
    ensures Arrives(u, k, m, Translated(u.a, u.w.base, u.code[k]), d')
  {
    hide *;
    var i := u.code[k];
    GlobalBlock(u.w.env, u.code, u.a, u.w.base, k, d, d');
    RelatedIs(u, k, d, m);
    SettledTrace(u, d, m);
    ScratchNames();
    LoadSymRuns(u, m, i.sym, i.size, i.uns);
    Finishes(u, k, d, m, i.d, [LoadSym(i.sym, i.size, i.uns)], RAX, u.w.env.global(m.trace, i.sym, i.size, i.uns));
  }

  lemma GlobalBlock(env: Env, code: Code, a: Allocation, base: nat, k: nat, d: Data, d': Data)
    requires k < |code| && code[k].LoadGlobal? && Exec(env, code[k], d) == Next(d')
    ensures Def(code[k]) == Some(code[k].d) && Follows(code, k, k + 1)
    ensures var i := code[k];
            && d' == d.(regs := d.regs[i.d := env.global(d.trace, i.sym, i.size, i.uns)])
            && Translated(a, base, i) == [LoadSym(i.sym, i.size, i.uns)] + StoreFrom(a, base, RAX, i.d)
  {
    hide StoreFrom;
  }

  lemma BinMeans(env: Env, i: Inst, d: Data, d': Data)
    requires i.Bin? && Exec(env, i, d) == Next(d')
    ensures var a, b := Val(d.regs, i.a), Val(d.regs, i.b);
            && a.Some? && b.Some? && Alu(i.op, a.value, b.value).Some?
            && d' == d.(regs := d.regs[i.d := Alu(i.op, a.value, b.value).value])
  {
    hide Alu;
  }

  // ----- instructions that define no register -----

  /** What is live where control goes next was live before an instruction that defines nothing. */
  lemma StaysHeld(u: Compilation, k: nat, j: nat, regs: Regs, m: Machine)
    requires Good(u) && LiveHeld(u, k, regs, m)
    requires k < |u.code| && Def(u.code[k]) == None && Follows(u.code, k, j)
    ensures LiveHeld(u, j, regs, m)
  {
    hide Good, Holds;
    forall v: nat | v in regs && LiveAt(u.code, v, j) ensures Holds(u, m, v, regs[v]) {
      LiveBefore(u.code, v, k, j);
    }
  }

  lemma ScratchedHeld(u: Compilation, k: nat, regs: Regs, m: Machine, m1: Machine)
    requires LiveHeld(u, k, regs, m) && Scratched(m, m1)
    ensures LiveHeld(u, k, regs, m1)
  {
    forall v: nat | v in regs && LiveAt(u.code, v, k) ensures Holds(u, m1, v, regs[v]) {
      ScratchedHolds(u, m, m1, v, regs[v]);
    }
  }

  /** Writing a slot disturbs no location. */
  lemma SlotHeld(u: Compilation, k: nat, regs: Regs, m: Machine, slot: int, w: Word)
    requires Good(u) && LiveHeld(u, k, regs, m) && slot in u.w.cells
    ensures LiveHeld(u, k, regs, m.(stack := Put(m.stack, slot, w)))
  {
    assert IsLocal(u.w.base, slot);
    hide Good, Put, Holds, StackIntact;
    forall v: nat | v in regs && LiveAt(u.code, v, k) ensures Holds(u, m.(stack := Put(m.stack, slot, w)), v, regs[v]) {
      DefinedIs(u, regs, v);
      LiveInside(u, v, k);
      LocationOf(u, v);
      PutHolds(u, m, slot, w, v, regs[v]);
    }
  }

  lemma SlotSettled(u: Compilation, d: Data, m: Machine, slot: int, w: Word, trace: Trace)
    requires Good(u) && Settled(u, d, m) && slot in u.w.cells
    ensures Settled(u, Data(d.regs, d.slots[slot := w], trace), m.(stack := Put(m.stack, slot, w), trace := trace))
  {
    PutSlot(u, m.stack, slot, w);
    hide Good, Put, StackIntact, Locals;
  }

  lemma TraceSettled(u: Compilation, d: Data, m: Machine, trace: Trace)
    requires Settled(u, d, m)
    ensures Settled(u, d.(trace := trace), m.(trace := trace))
  {
  }

  lemma HeldBy(u: Compilation, k: nat, regs: Regs, m: Machine, m1: Machine)
    requires LiveHeld(u, k, regs, m) && m1.gpr == m.gpr && m1.stack == m.stack
    ensures LiveHeld(u, k, regs, m1)
  {
  }

  /** The step of an instruction that writes `w` to a slot, and the trace, out of scratch registers. */
  lemma SlotWritten(u: Compilation, k: nat, d: Data, m: Machine, m1: Machine, slot: int, w: Word, trace: Trace)
    requires Good(u) && Related(u, k, d, m) && Scratched(m, m1)
    requires k < |u.code| && Def(u.code[k]) == None && Follows(u.code, k, k + 1) && slot in u.w.cells
    ensures var m2 := m1.(stack := Put(m1.stack, slot, w), trace := trace);
            var d' := Data(d.regs, d.slots[slot := w], trace);
            Settled(u, d', m2) && LiveHeld(u, k + 1, d.regs, m2)
  {
    hide *;
    RelatedIs(u, k, d, m);
    ScratchedSettled(u, d, m, m1);
    SlotSettled(u, d, m1, slot, w, trace);
    ScratchedHeld(u, k, d.regs, m, m1);
    StaysHeld(u, k, k + 1, d.regs, m1);
    SlotHeld(u, k + 1, d.regs, m1, slot, w);
    HeldBy(u, k + 1, d.regs, m1.(stack := Put(m1.stack, slot, w)),
           m1.(stack := Put(m1.stack, slot, w), trace := trace));
  }

  lemma TraceWritten(u: Compilation, k: nat, d: Data, m: Machine, m1: Machine, trace: Trace)
    requires Good(u) && Related(u, k, d, m) && Scratched(m, m1)
    requires k < |u.code| && Def(u.code[k]) == None && Follows(u.code, k, k + 1) && !u.code[k].StoreArg?
    ensures Related(u, k + 1, d.(trace := trace), m1.(trace := trace))
  {
    hide *;
    RelatedIs(u, k, d, m);
    ScratchedSettled(u, d, m, m1);
    TraceSettled(u, d, m1, trace);
    ScratchedHeld(u, k, d.regs, m, m1);
    StaysHeld(u, k, k + 1, d.regs, m1);
    HeldBy(u, k + 1, d.regs, m1, m1.(trace := trace));
    NoArgsWait(u, k, m1.(trace := trace));
    RelatedIs(u, k + 1, d.(trace := trace), m1.(trace := trace));
  }

  lemma StoreFrameDoes(u: Compilation, m: Machine, r: Gpr, slot: int)
    requires r in m.gpr && m.bp == 0 && InFrame(m, slot)
    ensures Do(u.w, StoreFrame(r, slot), m) == Some(m.(stack := Put(m.stack, slot, m.gpr[r]), trace := m.trace))
  {
    hide Put;
  }

  lemma SlotInFrame(u: Compilation, d: Data, m: Machine, slot: int)
    requires Good(u) && Settled(u, d, m) && slot in u.w.cells
    ensures m.bp == 0 && InFrame(m, slot)
  {
    FrameDisjoint(u.w.base, u.start, u.a);
    hide StackIntact;
    assert IsLocal(u.w.base, slot);
  }

  lemma SlotStoreMeans(env: Env, a: Allocation, base: nat, i: Inst, d: Data, d': Data)
    requires i.StoreStack? && Exec(env, i, d) == Next(d')
    ensures Val(d.regs, i.s).Some? && RegsOf(i.s) <= Uses(i)
    ensures d' == Data(d.regs, d.slots[i.slot := Val(d.regs, i.s).value], d.trace)
    ensures var ps := RegOfOperand(a, i.s);
            Translated(a, base, i)
            == if ps != NONE then [StoreFrame(PHYS[ps], i.slot)]
                        else LoadTo(a, base, i.s, RAX) + [StoreFrame(RAX, i.slot)]
  {
    hide LoadTo;
  }

  /** The stored operand is in a register, or is loaded into rax first. */
  lemma ToStore(u: Compilation, m: Machine, o: Opnd, slot: int, w: Word) returns (xs: seq<Asm>, r: Gpr, m1: Machine)
    requires OperandAt(u, m, o, w)
    ensures var ps := RegOfOperand(u.a, o);
            xs + [StoreFrame(r, slot)]
            == if ps != NONE then [StoreFrame(PHYS[ps], slot)]
                        else LoadTo(u.a, u.w.base, o, RAX) + [StoreFrame(RAX, slot)]
    ensures RunAll(u.w, xs, m) == Some(m1) && Scratched(m, m1) && r in m1.gpr && m1.gpr[r] == w
  {
    var ps := RegOfOperand(u.a, o);
    if ps != NONE {
      xs, r, m1 := [], PHYS[ps], m;
      assert Holds(u, m, o.v, w);
    } else {
      hide OperandAt, LoadTo;
      ScratchNames();
      LoadComputes(u, m, o, RAX, w);
      xs, r := LoadTo(u.a, u.w.base, o, RAX), RAX;
      m1 := RunAll(u.w, xs, m).value;
    }
  }

  lemma SlotStores(u: Compilation, k: nat, d: Data, m: Machine, d': Data)
    requires Good(u) && Related(u, k, d, m) && k < |u.code| && u.code[k].StoreStack?
    requires Exec(u.w.env, u.code[k], d) == Next(d')
    ensures Arrives(u, k, m, Translated(u.a, u.w.base, u.code[k]), d')
  {
    hide *;
    var i := u.code[k];
    SlotStoreMeans(u.w.env, u.a, u.w.base, i, d, d');
    StoreFacts(u.code, k);
    LoadedSlot(u.code, k);
    SlotListed(u, k);
    RelatedIs(u, k, d, m);
    var w := Val(d.regs, i.s).value;
    OperandReady(u, k, d, m, i.s);
    var xs, r, m1 := ToStore(u, m, i.s, i.slot, w);
    ScratchedSettled(u, d, m, m1);
    SlotInFrame(u, d, m1, i.slot);
    StoreFrameDoes(u, m1, r, i.slot);
    RunThen(u.w, xs, StoreFrame(r, i.slot), m);
    SlotWritten(u, k, d, m, m1, i.slot, w, m1.trace);
    var m2 := m1.(stack := Put(m1.stack, i.slot, w), trace := m1.trace);
    SettledTrace(u, d, m1);
    NoArgsWait(u, k, m2);
    RelatedIs(u, k + 1, d', m2);
    ArrivesIs(u, k, m, xs + [StoreFrame(r, i.slot)], d');
  }

  lemma SettledTrace(u: Compilation, d: Data, m: Machine)
    requires Settled(u, d, m)
    ensures m.trace == d.trace
  {
  }

  lemma StorePtrDoes(u: Compilation, d: Data, m: Machine, off: int, size: nat)
    requires Good(u) && Settled(u, d, m) && RAX in m.gpr && RCX in m.gpr
    requires Accessible(u.w.env, Wrap(m.gpr[RAX] as int + off))
    ensures var address := Wrap(m.gpr[RAX] as int + off);
            var trace := d.trace + [Stored(address, size, m.gpr[RCX])];
            var slot := u.w.env.alias(address);
            && (slot.None? ==>
                  && Do(u.w, StorePtr(off, size), m) == Some(m.(trace := trace))
                  && StoreVia(u.w.env, d, address, size, m.gpr[RCX]) == d.(trace := trace))
            && (slot.Some? ==>
                  var v := u.w.env.writePart(Slot(d.slots, slot.value), address, m.gpr[RCX], size);
                  && slot.value in u.w.cells
                  && Do(u.w, StorePtr(off, size), m) == Some(m.(stack := Put(m.stack, slot.value, v), trace := trace))
                  && StoreVia(u.w.env, d, address, size, m.gpr[RCX]) == Data(d.regs, d.slots[slot.value := v], trace))
  {
    hide *;
    var address := Wrap(m.gpr[RAX] as int + off);
    AliasInCells(u, address);
    SettledTrace(u, d, m);
    if u.w.env.alias(address).Some? { SlotRead(u, d, m, u.w.env.alias(address).value); }
    StorePtrMeans(u.w, d, m, off, size);
  }

  lemma StorePtrMeans(w: World, d: Data, m: Machine, off: int, size: nat)
    requires RAX in m.gpr && RCX in m.gpr && m.trace == d.trace && Accessible(w.env, Wrap(m.gpr[RAX] as int + off))
    requires var k := w.env.alias(Wrap(m.gpr[RAX] as int + off));
             k.Some? ==> k.value in m.stack && m.stack[k.value] == Slot(d.slots, k.value)
    ensures var address := Wrap(m.gpr[RAX] as int + off);
            var trace := d.trace + [Stored(address, size, m.gpr[RCX])];
            var slot := w.env.alias(address);
            && (slot.None? ==>
                  && Do(w, StorePtr(off, size), m) == Some(m.(trace := trace))
                  && StoreVia(w.env, d, address, size, m.gpr[RCX]) == d.(trace := trace))
            && (slot.Some? ==>
                  var v := w.env.writePart(Slot(d.slots, slot.value), address, m.gpr[RCX], size);
                  && Do(w, StorePtr(off, size), m) == Some(m.(stack := Put(m.stack, slot.value, v), trace := trace))
                  && StoreVia(w.env, d, address, size, m.gpr[RCX]) == Data(d.regs, d.slots[slot.value := v], trace))
  {
    hide Wrap, Slot, Put;
  }

  lemma StoreMeans(env: Env, i: Inst, d: Data, d': Data)
    requires i.Store? && Exec(env, i, d) == Next(d')
    ensures var a, w := Val(d.regs, i.p), Val(d.regs, i.s);
            && a.Some? && w.Some? && Accessible(env, Wrap(a.value as int + i.off))
            && d' == StoreVia(env, d, Wrap(a.value as int + i.off), i.size, w.value)
  {
    hide StoreVia, Wrap;
  }

  lemma StoreBlock(a: Allocation, base: nat, i: Inst)
    requires i.Store?
    ensures Translated(a, base, i) == LoadTo(a, base, i.s, RCX) + LoadTo(a, base, i.p, RAX) + [StorePtr(i.off, i.size)]
    ensures RegsOf(i.p) <= Uses(i) && RegsOf(i.s) <= Uses(i)
  {
  }

  lemma PointerStores(u: Compilation, k: nat, d: Data, m: Machine, d': Data)
    requires Good(u) && Related(u, k, d, m) && k < |u.code| && u.code[k].Store?
    requires Exec(u.w.env, u.code[k], d) == Next(d')
    ensures Arrives(u, k, m, Translated(u.a, u.w.base, u.code[k]), d')
  {
    hide *;
    var i := u.code[k];
    StoreMeans(u.w.env, i, d, d');
    var a, w := Val(d.regs, i.p).value, Val(d.regs, i.s).value;
    var xs := LoadTo(u.a, u.w.base, i.s, RCX) + LoadTo(u.a, u.w.base, i.p, RAX);
    StoreBlock(u.a, u.w.base, i);
    var address := Wrap(a as int + i.off);
    ScratchNames();
    RelatedIs(u, k, d, m);
    OperandReady(u, k, d, m, i.s);
    OperandReady(u, k, d, m, i.p);
    LoadPair(u, m, i.s, i.p, RCX, RAX, w, a);
    ComputesIs(u, m, xs, RCX, w);
    ComputesIs(u, m, xs, RAX, a);
    var m1 := RunAll(u.w, xs, m).value;
    ScratchedSettled(u, d, m, m1);
    SettledTrace(u, d, m);
    StorePtrDoes(u, d, m1, i.off, i.size);
    ComputesIs(u, m, xs, RAX, a);
    RunThen(u.w, xs, StorePtr(i.off, i.size), m);
    var trace := d.trace + [Stored(address, i.size, w)];
    var slot := u.w.env.alias(address);
    StoreFacts(u.code, k);
    if slot.Some? {
      var v := u.w.env.writePart(Slot(d.slots, slot.value), address, w, i.size);
      SlotWritten(u, k, d, m, m1, slot.value, v, trace);
      var m2 := m1.(stack := Put(m1.stack, slot.value, v), trace := trace);
      NoArgsWait(u, k, m2);
      RelatedIs(u, k + 1, d', m2);
    } else {
      TraceWritten(u, k, d, m, m1, trace);
    }
    ArrivesIs(u, k, m, xs + [StorePtr(i.off, i.size)], d');
  }

  lemma StoreFacts(code: Code, k: nat)
    requires k < |code| && (code[k].Store? || code[k].StoreGlobal? || code[k].StoreStack? || code[k].StoreArg?
                            || code[k].Mark?)
    ensures Def(code[k]) == None && Follows(code, k, k + 1)
  {
  }

  lemma Marks(u: Compilation, k: nat, d: Data, m: Machine, d': Data)
    requires Good(u) && Related(u, k, d, m) && k < |u.code| && u.code[k].Mark?
    requires Exec(u.w.env, u.code[k], d) == Next(d')
    ensures Arrives(u, k, m, Translated(u.a, u.w.base, u.code[k]), d')
  {
    RelatedIs(u, k, d, m);
    StoreFacts(u.code, k);
    RunOne(u.w, Lab(Local(u.code[k].l)), m);
    hide Good, Related;
    TraceWritten(u, k, d, m, m, d.trace);
    assert m == m.(trace := d.trace) by { SettledTrace(u, d, m); }
  }

  lemma GlobalStoreMeans(env: Env, a: Allocation, base: nat, i: Inst, d: Data, d': Data)
    requires i.StoreGlobal? && Exec(env, i, d) == Next(d')
    ensures Val(d.regs, i.s).Some? && RegsOf(i.s) <= Uses(i)
    ensures d' == d.(trace := d.trace + [GlobalStored(i.sym, i.size, Val(d.regs, i.s).value)])
    ensures Translated(a, base, i) == LoadTo(a, base, i.s, RAX) + [StoreSym(i.sym, i.size)]
  {
    hide LoadTo;
  }

  lemma StoreSymDoes(w: World, m: Machine, sym: nat, size: nat)
    requires RAX in m.gpr
    ensures Do(w, StoreSym(sym, size), m) == Some(m.(trace := m.trace + [GlobalStored(sym, size, m.gpr[RAX])]))
  {
  }

  lemma GlobalStores(u: Compilation, k: nat, d: Data, m: Machine, d': Data)
    requires Good(u) && Related(u, k, d, m) && k < |u.code| && u.code[k].StoreGlobal?
    requires Exec(u.w.env, u.code[k], d) == Next(d')
    ensures Arrives(u, k, m, Translated(u.a, u.w.base, u.code[k]), d')
  {
    hide *;
    var i := u.code[k];
    GlobalStoreMeans(u.w.env, u.a, u.w.base, i, d, d');
    StoreFacts(u.code, k);
    RelatedIs(u, k, d, m);
    var w := Val(d.regs, i.s).value;
    OperandReady(u, k, d, m, i.s);
    ScratchNames();
    var xs := LoadTo(u.a, u.w.base, i.s, RAX);
    LoadComputes(u, m, i.s, RAX, w);
    ComputesIs(u, m, xs, RAX, w);
    var m1 := RunAll(u.w, xs, m).value;
    ScratchedSettled(u, d, m, m1);
    SettledTrace(u, d, m1);
    StoreSymDoes(u.w, m1, i.sym, i.size);
    RunThen(u.w, xs, StoreSym(i.sym, i.size), m);
    TraceWritten(u, k, d, m, m1, d.trace + [GlobalStored(i.sym, i.size, w)]);
    ArrivesIs(u, k, m, xs + [StoreSym(i.sym, i.size)], d');
  }

  // ----- incoming arguments -----

  /** The scratch register that storing a stack argument goes through. */
  lemma ArgsWaitOn(u: Compilation, k: nat, m: Machine, m2: Machine)
    requires Good(u) && k < |u.code| && u.code[k].StoreArg? && ArgsWait(u, k, m)
    requires m2.xmm == m.xmm && forall r: Gpr :: r != RAX && r in m.gpr ==> r in m2.gpr && m2.gpr[r] == m.gpr[r]
    ensures ArgsWait(u, k + 1, m2)
  {
  }

  lemma AllArgsBefore(u: Compilation, k: nat)
    requires Good(u) && k < |u.code| && u.code[k].StoreArg?
    ensures forall i :: 0 <= i < k ==> u.code[i].StoreArg?
    ensures ArgArrived(u.w.env, u.entry, u.code[k].arg) && u.code[k].slot in u.w.cells
  {
    assert SlotIn(u.code[k], u.w.cells);
  }

  lemma SaveReg(u: Compilation, m: Machine, slot: int, n: nat)
    requires n < 6 && ARG_REGS[n] in m.gpr && m.bp == 0 && InFrame(m, slot)
    ensures RunAll(u.w, SaveArg(slot, ArgReg(n)), m)
        == Some(m.(stack := Put(m.stack, slot, m.gpr[ARG_REGS[n]]), trace := m.trace))
  {
    StoreFrameDoes(u, m, ARG_REGS[n], slot);
    RunOne(u.w, StoreFrame(ARG_REGS[n], slot), m);
    hide Do, Put;
  }

  lemma SaveXmmRuns(u: Compilation, m: Machine, slot: int, n: nat)
    requires n in m.xmm && m.bp == 0 && InFrame(m, slot)
    ensures RunAll(u.w, SaveArg(slot, ArgXmm(n)), m)
        == Some(m.(stack := Put(m.stack, slot, m.xmm[n]), trace := m.trace))
  {
    assert Do(u.w, SaveXmm(n, slot), m) == Some(m.(stack := Put(m.stack, slot, m.xmm[n]))) by { hide Put; }
    assert SaveArg(slot, ArgXmm(n)) == [SaveXmm(n, slot)];
    hide *;
    RunOne(u.w, SaveXmm(n, slot), m);
  }

  lemma SaveStack(u: Compilation, m: Machine, slot: int, off: nat)
    requires off in m.stack && InFrame(m, off) && m.bp == 0 && InFrame(m, slot)
    ensures var m1 := SetGpr(m, RAX, m.stack[off]);
            RunAll(u.w, SaveArg(slot, ArgStack(off)), m)
              == Some(m1.(stack := Put(m1.stack, slot, m.stack[off]), trace := m1.trace))
  {
    var m1 := SetGpr(m, RAX, m.stack[off]);
    assert Do(u.w, LoadFrame(off, RAX), m) == Some(m1);
    RunOne(u.w, LoadFrame(off, RAX), m);
    RunThen(u.w, [LoadFrame(off, RAX)], StoreFrame(RAX, slot), m);
    assert [LoadFrame(off, RAX)] + [StoreFrame(RAX, slot)] == SaveArg(slot, ArgStack(off));
    StoreFrameDoes(u, m1, RAX, slot);
    hide Do, Put;
  }

  lemma StackArgThere(u: Compilation, k: nat, m: Machine)
    requires Good(u) && k < |u.code| && u.code[k].StoreArg? && u.code[k].arg.ArgStack? && StackIntact(u, m.stack)
    requires m.bp == 0 && m.sp + Size(u) == 0
    ensures var off := u.code[k].arg.n;
            off in m.stack && m.stack[off] == u.w.env.incoming(u.code[k].arg) && InFrame(m, off)
  {
    assert ArgArrived(u.w.env, u.entry, u.code[k].arg);
  }

  lemma ArgThere(u: Compilation, k: nat, m: Machine)
    requires Good(u) && k < |u.code| && u.code[k].StoreArg? && ArgsWait(u, k, m)
    ensures var arg := u.code[k].arg;
            && (arg.ArgReg? ==> arg.n < 6 && ARG_REGS[arg.n] in m.gpr
                                && m.gpr[ARG_REGS[arg.n]] == u.w.env.incoming(arg))
            && (arg.ArgXmm? ==> arg.n in m.xmm && m.xmm[arg.n] == u.w.env.incoming(arg))
  {
    AllArgsBefore(u, k);
  }

  /** The block that stores an argument stores what arrived. */
  lemma SaveArgRuns(u: Compilation, k: nat, d: Data, m: Machine) returns (m1: Machine)
    requires Good(u) && Related(u, k, d, m) && k < |u.code| && u.code[k].StoreArg?
    ensures Scratched(m, m1) && m1.trace == d.trace && m1.xmm == m.xmm
    ensures forall r: Gpr :: r != RAX && r in m.gpr ==> r in m1.gpr && m1.gpr[r] == m.gpr[r]
    ensures RunAll(u.w, SaveArg(u.code[k].slot, u.code[k].arg), m)
         == Some(m1.(stack := Put(m1.stack, u.code[k].slot, u.w.env.incoming(u.code[k].arg)), trace := m1.trace))
  {
    hide Good, Related, StackIntact, RegsIntact, Do, RunAll, Put, ArgsWait, LiveHeld, SaveArg;
    RelatedIs(u, k, d, m);
    AllArgsBefore(u, k);
    ArgThere(u, k, m);
    SlotInFrame(u, d, m, u.code[k].slot);
    var slot, arg := u.code[k].slot, u.code[k].arg;
    m1 := m;
    match arg
    case ArgReg(n) => SaveReg(u, m, slot, n);
    case ArgXmm(n) => SaveXmmRuns(u, m, slot, n);
    case ArgStack(off) =>
      StackArgThere(u, k, m);
      SaveStack(u, m, slot, off);
      m1 := SetGpr(m, RAX, m.stack[off]);
  }

  lemma ArgMeans(env: Env, a: Allocation, base: nat, i: Inst, d: Data, d': Data)
    requires i.StoreArg? && Exec(env, i, d) == Next(d')
    ensures d' == Data(d.regs, d.slots[i.slot := env.incoming(i.arg)], d.trace)
    ensures Translated(a, base, i) == SaveArg(i.slot, i.arg)
  {
    hide SaveArg;
  }

  lemma ArgStores(u: Compilation, k: nat, d: Data, m: Machine, d': Data)
    requires Good(u) && Related(u, k, d, m) && k < |u.code| && u.code[k].StoreArg?
    requires Exec(u.w.env, u.code[k], d) == Next(d')
    ensures Arrives(u, k, m, Translated(u.a, u.w.base, u.code[k]), d')
  {
    hide *;
    ArgMeans(u.w.env, u.a, u.w.base, u.code[k], d, d');
    var slot, w := u.code[k].slot, u.w.env.incoming(u.code[k].arg);
    RelatedIs(u, k, d, m);
    StoreFacts(u.code, k);
    AllArgsBefore(u, k);
    var m1 := SaveArgRuns(u, k, d, m);
    SlotWritten(u, k, d, m, m1, slot, w, m1.trace);
    var m2 := m1.(stack := Put(m1.stack, slot, w), trace := m1.trace);
    ArgsWaitOn(u, k, m, m2);
    RelatedIs(u, k + 1, d', m2);
    ArrivesIs(u, k, m, Translated(u.a, u.w.base, u.code[k]), d');
  }
}
