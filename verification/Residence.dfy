/** Where values live in compiled code: the relation between a state of the IR machine and one of the
    x86-64 machine, and why writing one location leaves the others alone. */
module Residence {
  import opened Word64
  import opened IR
  import opened LoweredForm
  import opened Liveness
  import LinearScan
  import opened RegAlloc
  import opened X86
  import opened CodeGen
  import Variadic

  /** A function under compilation with its allocation, the save area if it has unnamed arguments, the outside
      world and the machine at its entry. */
  datatype Compilation = Compilation(
    code: Code,
    n: nat,
    start: seq<int>,
    end: seq<int>,
    a: Allocation,
    area: Option<int>,
    w: World,
    entry: Machine)

  ghost predicate Allocated(u: Compilation) {
    && Allocates(u.code, u.n, u.w.base, u.start, u.end, u.a)
    && IntervalsCover(u.code, u.n, u.start, u.end)
    && Numbered(u.code, u.n)
    && UniqueMarks(u.code) && TargetsExist(u.code) && ArgumentsFirst(u.code)
  }

  predicate SlotIn(inst: Inst, cells: set<int>) {
    SlotOf(inst).Some? ==> SlotOf(inst).value in cells
  }

  /** Slots are pairwise disjoint cells of the local area; the code and pointers use no others. */
  ghost predicate SlotsDisjoint(u: Compilation) {
    && (forall k :: k in u.w.cells ==> IsLocal(u.w.base, k))
    && (forall j, k :: j in u.w.cells && k in u.w.cells && j != k ==> Apart(j, k))
    && (forall i :: 0 <= i < |u.code| ==> SlotIn(u.code[i], u.w.cells))
    && (forall p: Word :: u.w.env.alias(p).Some? ==> u.w.env.alias(p).value in u.w.cells)
    && AreaApart(u)
  }

  /** The save area lies in the local area, apart from every slot. */
  ghost predicate AreaApart(u: Compilation) {
    u.area.Some? ==>
      && 0 <= u.area.value + u.w.base && u.area.value + Variadic.SAVE_AREA <= 0
      && forall k :: k in u.w.cells ==> k + 8 <= u.area.value || u.area.value + Variadic.SAVE_AREA <= k
  }

  ghost predicate CastsWiden(env: Env) {
    forall w: Word, size: nat, uns: bool :: env.cast(w, size, uns) == Extended(w, size, uns)
  }

  ghost predicate ArgArrived(env: Env, entry: Machine, arg: Incoming) {
    match arg
    case ArgReg(n) => n < 6 && ARG_REGS[n] in entry.gpr && entry.gpr[ARG_REGS[n]] == env.incoming(arg)
    case ArgStack(off) => off >= 16 && off in entry.stack && entry.stack[off] == env.incoming(arg)
    case ArgXmm(n) => n in entry.xmm && entry.xmm[n] == env.incoming(arg)
  }

  /** At entry every register holds something, the return address is on top of the stack, the slots are
      there, and the arguments are where the code expects them. */
  ghost predicate Entered(u: Compilation) {
    && u.entry.sp == 8 && 8 in u.entry.stack && u.entry.trace == []
    && (forall r: Gpr :: r in u.entry.gpr)
    && Locals(u.w, u.entry.stack).Keys == u.w.cells
    && (forall i :: 0 <= i < |u.code| && u.code[i].StoreArg? ==> ArgArrived(u.w.env, u.entry, u.code[i].arg))
  }

  ghost predicate Good(u: Compilation) {
    Allocated(u) && SlotsDisjoint(u) && CastsWiden(u.w.env) && Entered(u)
  }

  function Size(u: Compilation): nat {
    FrameSize(u.w.base, u.a)
  }

  // ----- the relation -----

  /** The location of `v` holds `w`. */
  predicate Holds(u: Compilation, m: Machine, v: nat, w: Word) {
    var r := RegOf(u.a, v);
    if r != NONE then PHYS[r] in m.gpr && m.gpr[PHYS[r]] == w
    else
      var off := OffsetOf(u.a, u.w.base, v);
      off in m.stack && m.stack[off] == w
  }

  /** The first `n` argument registers are in the save area. */
  ghost predicate AreaHolds(u: Compilation, stack: Cells, n: nat)
    requires n <= 6
  {
    u.area.Some? ==>
      forall i :: 0 <= i < n ==>
        var x := u.area.value + 8 * i;
        ARG_REGS[i] in u.entry.gpr && x in stack && stack[x] == u.entry.gpr[ARG_REGS[i]]
  }

  /** What the caller put on the stack is as it was, the return address included. */
  ghost predicate AboveIntact(u: Compilation, stack: Cells) {
    forall x: int :: x >= 8 && x in u.entry.stack ==> x in stack && stack[x] == u.entry.stack[x]
  }

  ghost predicate StackIntact(u: Compilation, stack: Cells) {
    && 0 in stack && stack[0] == u.entry.bp
    && 8 in stack && 8 in u.entry.stack && stack[8] == u.entry.stack[8]
    && AreaHolds(u, stack, 6) && AboveIntact(u, stack)
    && |u.a.used| == |u.a.save| == LinearScan.REG_COUNT
    && (forall r :: 0 <= r < 5 && u.a.used[r] ==>
          u.a.save[r] in stack && PHYS[r] in u.entry.gpr && stack[u.a.save[r]] == u.entry.gpr[PHYS[r]])
    && (forall i :: 0 <= i < |u.code| && u.code[i].StoreArg? && u.code[i].arg.ArgStack? ==>
          var off := u.code[i].arg.n; off in stack && stack[off] == u.w.env.incoming(u.code[i].arg))
  }

  /** Callee-saved registers the code does not use hold what they held at entry. */
  ghost predicate RegsIntact(u: Compilation, gpr: map<Gpr, Word>) {
    && |u.a.used| == LinearScan.REG_COUNT
    && forall r :: 0 <= r < 5 && !u.a.used[r] ==>
                     PHYS[r] in gpr && PHYS[r] in u.entry.gpr && gpr[PHYS[r]] == u.entry.gpr[PHYS[r]]
  }

  /** What holds between any two instructions, whatever the registers of the IR. */
  ghost predicate Settled(u: Compilation, d: Data, m: Machine) {
    && m.bp == 0 && m.sp + Size(u) == 0
    && m.trace == d.trace
    && Locals(u.w, m.stack) == d.slots && d.slots.Keys == u.w.cells
    && StackIntact(u, m.stack) && RegsIntact(u, m.gpr)
  }

  /** Until the last incoming argument is stored the argument registers are untouched. */
  ghost predicate ArgsWait(u: Compilation, k: nat, m: Machine)
    requires k <= |u.code|
  {
    (forall i :: 0 <= i < k ==> u.code[i].StoreArg?) ==>
      && (forall r: Gpr :: r in ARG_REGS && r in u.entry.gpr ==> r in m.gpr && m.gpr[r] == u.entry.gpr[r])
      && m.xmm == u.entry.xmm
  }

  ghost predicate AllDefined(code: Code, regs: Regs) {
    forall v: nat :: v in regs ==> Defined(code, v)
  }

  ghost predicate LiveHeld(u: Compilation, k: nat, regs: Regs, m: Machine) {
    AllDefined(u.code, regs) && forall v: nat :: v in regs && LiveAt(u.code, v, k) ==> Holds(u, m, v, regs[v])
  }

  /** The x86-64 machine stands where the IR machine stands before instruction `k`. */
  ghost predicate Related(u: Compilation, k: nat, d: Data, m: Machine) {
    && k <= |u.code|
    && Settled(u, d, m)
    && LiveHeld(u, k, d.regs, m)
    && ArgsWait(u, k, m)
  }

  // ----- locations do not interfere -----

  lemma LocationOf(u: Compilation, v: nat)
    requires Good(u) && 1 <= v <= u.n && u.start[v] >= 0
    ensures RegOf(u.a, v) == u.a.reg[v]
    ensures RegOf(u.a, v) == NONE ==>
              && OffsetOf(u.a, u.w.base, v) == u.a.spill[v] && Spilled(u.a.reg, u.start, v)
              && CellInside(u.a.spill[v], Size(u), u.w.base)
    ensures RegOf(u.a, v) != NONE ==> u.a.used[RegOf(u.a, v)]
  {
    assert LaidOut(u.w.base, u.start, u.a) && UsesMarked(u.start, u.a);
    FrameDisjoint(u.w.base, u.start, u.a);
  }

  lemma LiveInside(u: Compilation, v: nat, k: nat)
    requires Good(u) && LiveAt(u.code, v, k) && Defined(u.code, v)
    ensures 1 <= v <= u.n && 0 <= u.start[v] <= k <= u.end[v]
  {
  }

  lemma OccursInside(u: Compilation, v: nat, k: nat)
    requires Good(u) && k < |u.code| && v in Occurring(u.code[k])
    ensures 1 <= v <= u.n && 0 <= u.start[v] <= k <= u.end[v]
  {
    assert IsStart(u.code, v, u.start[v]);
  }

  ghost predicate LocationsApart(u: Compilation, v: nat, d: nat) {
    var r, s := RegOf(u.a, v), RegOf(u.a, d);
    && (r != NONE ==> r != s)
    && (r == NONE && s == NONE ==> Apart(OffsetOf(u.a, u.w.base, v), OffsetOf(u.a, u.w.base, d)))
  }

  /** Registers whose intervals both contain `k` have locations apart. */
  lemma Separate(u: Compilation, v: nat, d: nat, k: nat)
    requires Good(u) && v != d
    requires 1 <= v <= u.n && 0 <= u.start[v] <= k <= u.end[v]
    requires 1 <= d <= u.n && 0 <= u.start[d] <= k <= u.end[d]
    ensures LocationsApart(u, v, d)
  {
    LocationOf(u, v);
    LocationOf(u, d);
    assert Separated(u.start, u.end, u.a.reg) && Overlapping(u.start, u.end, v, d);
    FrameDisjoint(u.w.base, u.start, u.a);
    if RegOf(u.a, v) == NONE && RegOf(u.a, d) == NONE {
      if v < d {
        assert CellsApart(u.a.spill[v], u.a.spill[d]);
      } else {
        assert CellsApart(u.a.spill[d], u.a.spill[v]);
      }
    }
  }

  /** Writing the result of instruction `k` disturbs nothing that is live behind it. */
  lemma Interference(u: Compilation, k: nat, v: nat, d: nat)
    requires Good(u) && k < |u.code| && Def(u.code[k]) == Some(d) && v != d
    requires LiveAt(u.code, v, k + 1) && Follows(u.code, k, k + 1) && Defined(u.code, v)
    ensures LiveAt(u.code, v, k) && LocationsApart(u, v, d)
  {
    LiveBefore(u.code, v, k, k + 1);
    LiveInside(u, v, k);
    OccursInside(u, d, k);
    Separate(u, v, d, k);
  }

  // ----- writing cells -----

  /** A cell apart from all that matters may be written. */
  lemma PutKeeps(u: Compilation, stack: Cells, off: int, w: Word)
    requires Good(u) && StackIntact(u, stack) && CellInside(off, Size(u), u.w.base)
    requires forall r :: 0 <= r < 5 && u.a.used[r] ==> Apart(u.a.save[r], off)
    ensures StackIntact(u, Put(stack, off, w))
    ensures Locals(u.w, Put(stack, off, w)) == Locals(u.w, stack)
  {
  }

  lemma PutSpill(u: Compilation, stack: Cells, v: nat, w: Word)
    requires Good(u) && StackIntact(u, stack)
    requires 1 <= v <= u.n && u.start[v] >= 0 && RegOf(u.a, v) == NONE
    ensures var off := OffsetOf(u.a, u.w.base, v);
            && CellInside(off, Size(u), u.w.base)
            && StackIntact(u, Put(stack, off, w))
            && Locals(u.w, Put(stack, off, w)) == Locals(u.w, stack)
  {
    LocationOf(u, v);
    FrameDisjoint(u.w.base, u.start, u.a);
    assert forall r :: 0 <= r < 5 && u.a.used[r] ==> CellsApart(u.a.save[r], u.a.spill[v]);
    PutKeeps(u, stack, u.a.spill[v], w);
  }

  /** Writing a slot changes that slot and no other part of the frame. */
  lemma PutSlot(u: Compilation, stack: Cells, k: int, w: Word)
    requires Good(u) && StackIntact(u, stack) && k in u.w.cells
    requires Locals(u.w, stack).Keys == u.w.cells
    ensures StackIntact(u, Put(stack, k, w))
    ensures Locals(u.w, Put(stack, k, w)) == Locals(u.w, stack)[k := w]
    ensures IsLocal(u.w.base, k) && 0 <= k + Size(u)
  {
    FrameDisjoint(u.w.base, u.start, u.a);
    assert forall j :: j in u.w.cells ==> j in Locals(u.w, stack) && j in stack;
    assert forall j :: j in u.w.cells && j != k ==> Apart(j, k);
  }

  lemma PutHolds(u: Compilation, m: Machine, off: int, w: Word, v: nat, x: Word)
    requires Holds(u, m, v, x)
    requires RegOf(u.a, v) == NONE ==> Apart(OffsetOf(u.a, u.w.base, v), off)
    ensures Holds(u, m.(stack := Put(m.stack, off, w)), v, x)
  {
  }

  // ----- between two instructions -----

  predicate Scratch(r: Gpr) {
    r in {RAX, RCX, RDX, RSI, RDI, R8, R9}
  }

  /** Nothing but scratch registers and flags has changed. */
  ghost predicate Scratched(m: Machine, m1: Machine) {
    && m1.bp == m.bp && m1.sp == m.sp && m1.stack == m.stack && m1.trace == m.trace && m1.xmm == m.xmm
    && forall r: Gpr :: r in m.gpr && !Scratch(r) ==> r in m1.gpr && m1.gpr[r] == m.gpr[r]
  }

  lemma PhysNotScratch()
    ensures forall i :: 0 <= i < |PHYS| ==> !Scratch(PHYS[i])
    ensures forall i, j :: 0 <= i < |PHYS| && 0 <= j < |PHYS| && PHYS[i] == PHYS[j] ==> i == j
    ensures forall i :: 0 <= i < |PHYS| ==> (Preserved(PHYS[i]) <==> i < 5)
  {
  }

  lemma ScratchedHolds(u: Compilation, m: Machine, m1: Machine, v: nat, w: Word)
    requires Scratched(m, m1) && Holds(u, m, v, w)
    ensures Holds(u, m1, v, w)
  {
    PhysNotScratch();
  }

  /** Ready to write the result of instruction `k` to `dst`: everything else live behind it is in place. */
  ghost predicate Ready(u: Compilation, k: nat, dst: nat, d: Data, m: Machine) {
    && Settled(u, d, m) && AllDefined(u.code, d.regs)
    && forall v: nat :: v in d.regs && v != dst && LiveAt(u.code, v, k + 1) ==> Holds(u, m, v, d.regs[v])
  }

  lemma ScratchedSettled(u: Compilation, d: Data, m: Machine, m1: Machine)
    requires Settled(u, d, m) && Scratched(m, m1)
    ensures Settled(u, d, m1)
  {
    PhysNotScratch();
  }

  lemma ScratchedReady(u: Compilation, k: nat, dst: nat, d: Data, m: Machine, m1: Machine)
    requires Good(u) && Related(u, k, d, m) && Scratched(m, m1)
    requires k < |u.code| && Def(u.code[k]) == Some(dst) && Follows(u.code, k, k + 1)
    ensures Ready(u, k, dst, d, m1)
  {
    hide *;
    RelatedIs(u, k, d, m);
    ScratchedSettled(u, d, m, m1);
    HeldIs(u, k, d.regs, m);
    forall v: nat | v in d.regs && v != dst && LiveAt(u.code, v, k + 1) ensures Holds(u, m1, v, d.regs[v]) {
      DefinedIs(u, d.regs, v);
      Interference(u, k, v, dst);
      HeldAt(u, k, d.regs, m, v);
      ScratchedHolds(u, m, m1, v, d.regs[v]);
    }
    ReadyIs(u, k, dst, d, m1);
  }

  lemma RelatedIs(u: Compilation, k: nat, d: Data, m: Machine)
    ensures Related(u, k, d, m) <==> k <= |u.code| && Settled(u, d, m) && LiveHeld(u, k, d.regs, m) && ArgsWait(u, k, m)
  {
  }

  lemma ReadyIs(u: Compilation, k: nat, dst: nat, d: Data, m: Machine)
    ensures Ready(u, k, dst, d, m) <==>
              && Settled(u, d, m) && AllDefined(u.code, d.regs)
              && forall v: nat :: v in d.regs && v != dst && LiveAt(u.code, v, k + 1) ==> Holds(u, m, v, d.regs[v])
  {
  }

  lemma HeldAt(u: Compilation, k: nat, regs: Regs, m: Machine, v: nat)
    requires LiveHeld(u, k, regs, m) && v in regs && LiveAt(u.code, v, k)
    ensures Holds(u, m, v, regs[v])
  {
  }

  /** The machine after the location of `d` received `w`. */
  function Commit(u: Compilation, m: Machine, d: nat, w: Word): Machine {
    var r := RegOf(u.a, d);
    if r != NONE then m.(gpr := m.gpr[PHYS[r] := w])
    else m.(stack := Put(m.stack, OffsetOf(u.a, u.w.base, d), w))
  }

  lemma CommitHolds(u: Compilation, m: Machine, d: nat, w: Word)
    ensures Holds(u, Commit(u, m, d, w), d, w)
  {
  }

  lemma CommitOther(u: Compilation, m: Machine, d: nat, w: Word, v: nat, x: Word)
    requires Holds(u, m, v, x) && LocationsApart(u, v, d)
    ensures Holds(u, Commit(u, m, d, w), v, x)
  {
    PhysNotScratch();
  }

  lemma CommitSettled(u: Compilation, m: Machine, dst: nat, w: Word, d: Data, regs: Regs)
    requires Good(u) && Settled(u, d, m) && 1 <= dst <= u.n && u.start[dst] >= 0
    ensures Settled(u, d.(regs := regs), Commit(u, m, dst, w))
  {
    hide Good, Put, Locals, StackIntact;
    PhysNotScratch();
    LocationOf(u, dst);
    var r := RegOf(u.a, dst);
    if r == NONE {
      PutSpill(u, m.stack, dst, w);
    } else {
      UsedPhys(u, dst);
    }
  }

  lemma UsedPhys(u: Compilation, v: nat)
    requires Good(u) && 1 <= v <= u.n && u.start[v] >= 0 && RegOf(u.a, v) != NONE
    ensures |u.a.used| == LinearScan.REG_COUNT && u.a.used[RegOf(u.a, v)]
  {
    LocationOf(u, v);
  }

  /** Writing the result completes the step. */
  lemma Commits(u: Compilation, k: nat, dst: nat, d: Data, m: Machine, w: Word)
    requires Good(u) && Ready(u, k, dst, d, m)
    requires k < |u.code| && Def(u.code[k]) == Some(dst) && Follows(u.code, k, k + 1)
    ensures Related(u, k + 1, d.(regs := d.regs[dst := w]), Commit(u, m, dst, w))
  {
    hide *;
    ReadyIs(u, k, dst, d, m);
    DefOccurs(u, k, dst);
    OccursInside(u, dst, k);
    var regs', m' := d.regs[dst := w], Commit(u, m, dst, w);
    CommitSettled(u, m, dst, w, d, regs');
    DefinesMore(u, k, dst, d.regs, w);
    forall v: nat | v in regs' && LiveAt(u.code, v, k + 1) ensures Holds(u, m', v, regs'[v]) {
      if v == dst {
        CommitHolds(u, m, dst, w);
      } else {
        DefinedIs(u, d.regs, v);
        Interference(u, k, v, dst);
        CommitOther(u, m, dst, w, v, d.regs[v]);
      }
    }
    HeldIs(u, k + 1, regs', m');
    DefinesNoArg(u.code[k]);
    NoArgsWait(u, k, m');
    RelatedIs(u, k + 1, d.(regs := regs'), m');
  }

  lemma DefinesNoArg(inst: Inst)
    ensures Def(inst).Some? ==> !inst.StoreArg?
  {
  }

  lemma DefinedIs(u: Compilation, regs: Regs, v: nat)
    requires AllDefined(u.code, regs) && v in regs
    ensures Defined(u.code, v)
  {
  }

  lemma DefinesMore(u: Compilation, k: nat, dst: nat, regs: Regs, w: Word)
    requires AllDefined(u.code, regs) && k < |u.code| && Def(u.code[k]) == Some(dst)
    ensures AllDefined(u.code, regs[dst := w])
  {
  }

  lemma DefOccurs(u: Compilation, k: nat, dst: nat)
    requires k < |u.code| && Def(u.code[k]) == Some(dst)
    ensures dst in Occurring(u.code[k])
  {
  }

  lemma HeldIs(u: Compilation, k: nat, regs: Regs, m: Machine)
    ensures LiveHeld(u, k, regs, m) <==>
              AllDefined(u.code, regs) && forall v: nat :: v in regs && LiveAt(u.code, v, k) ==> Holds(u, m, v, regs[v])
  {
  }

  lemma NoArgsWait(u: Compilation, k: nat, m: Machine)
    requires k < |u.code| && !u.code[k].StoreArg?
    ensures ArgsWait(u, k + 1, m)
  {
  }
}
