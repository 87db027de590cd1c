/** From a call in one compiled function to the entry of another. */
module Handover {
  import opened Word64
  import opened IR
  import opened X86
  import opened Residence
  import opened Arguments
  import opened Variadic
  import opened CompiledRuns
  import opened CodeLayout
  import opened CodeGen

  /** The callee starts with the caller's registers. In its own frame's terms the caller's stack
      pointer is 16 above the frame pointer: the return address and the saved rbp lie between. */
  ghost predicate Enters(caller: Machine, entry: Machine) {
    && entry.gpr == caller.gpr && entry.xmm == caller.xmm
    && forall a :: a in caller.stack && a >= caller.sp ==>
         a - caller.sp + 16 in entry.stack && entry.stack[a - caller.sp + 16] == caller.stack[a]
  }

  lemma {:induction false} ArgsHeld(m: Machine, kinds: seq<Arg>, n: nat)
    requires n <= |kinds| && ArgsAt(m, kinds, n).Some?
    ensures |ArgsAt(m, kinds, n).value| == n
    ensures forall j: nat :: j < n ==> ArgAt(m, kinds, j) == Some(ArgsAt(m, kinds, n).value[j])
  {
    hide ArgAt;
    if n > 0 { ArgsHeld(m, kinds, n - 1); }
  }

  lemma PlaceArrives(env: Env, caller: Machine, entry: Machine, p: Place, w: Word)
    requires Enters(caller, entry) && AtPlace(caller, p) == Some(w) && env.incoming(Seen(p)) == w
    ensures ArgArrived(env, entry, Seen(p))
  {
  }

  /** What the machine takes to be the arguments of a call is what the callee stores from its cells, for
      every list of integer, floating and by-value object parameters. */
  lemma ArgumentsEnter(env: Env, caller: Machine, entry: Machine, isMethod: bool, params: seq<Param>)
    requires var kinds := ArgList(isMethod, params);
             && ArgsAt(caller, kinds, |kinds|).Some? && Enters(caller, entry)
             && var cells, args := CellsOf(isMethod, params), ArgsAt(caller, kinds, |kinds|).value;
                forall j :: 0 <= j < |cells| && j < |args| ==> env.incoming(cells[j]) == args[j]
    ensures var cells := CellsOf(isMethod, params);
            |cells| == |ArgList(isMethod, params)| && forall j :: 0 <= j < |cells| ==> ArgArrived(env, entry, cells[j])
  {
    hide CellsOf, ArgList, Places, TakenBy, GpWanted, ArgsAt, Enters, ArgArrived;
    var kinds, cells := ArgList(isMethod, params), CellsOf(isMethod, params);
    ArgsHeld(caller, kinds, |kinds|);
    CallerCalleeAgree(isMethod, params);
    forall j | 0 <= j < |cells| ensures ArgArrived(env, entry, cells[j]) {
      assert cells[j] == Seen(Places(kinds)[j]);
      assert ArgAt(caller, kinds, j) == Some(ArgsAt(caller, kinds, |kinds|).value[j]);
      PlaceArrives(env, caller, entry, Places(kinds)[j], env.incoming(cells[j]));
    }
  }

  // ----- variadic functions -----

  lemma {:induction false} DeliveredOnly<V>(places: seq<Place>, values: seq<V>, p: Place)
    requires |places| == |values| && p in Delivered(places, values)
    ensures exists j :: 0 <= j < |places| && places[j] == p && Delivered(places, values)[p] == values[j]
  {
    if p != places[|places| - 1] { DeliveredOnly(places[..|places| - 1], values[..|places| - 1], p); }
  }

  /** The six argument registers as the prologue finds them; one that holds nothing known is saved all the same. */
  ghost predicate InRegisters(entry: Machine, gpr: seq<Word>) {
    |gpr| == 6 && forall i :: 0 <= i < 6 && ARG_REGS[i] in entry.gpr ==> gpr[i] == entry.gpr[ARG_REGS[i]]
  }

  lemma StoredAtPlace(caller: Machine, kinds: seq<Arg>, values: seq<Word>, p: Place)
    requires ArgsAt(caller, kinds, |kinds|) == Some(values)
    ensures |values| == |kinds|
    ensures p in Delivered(Places(kinds), values) ==> AtPlace(caller, p) == Some(Delivered(Places(kinds), values)[p])
  {
    ArgsHeld(caller, kinds, |kinds|);
    hide Delivered, Places, ArgsAt, AtPlace;
    var stored := Delivered(Places(kinds), values);
    if p in stored {
      DeliveredOnly(Places(kinds), values, p);
      var j :| 0 <= j < |kinds| && Places(kinds)[j] == p && stored[p] == values[j];
      assert ArgAt(caller, kinds, j) == Some(values[j]);
    }
  }

  lemma CellEnters(caller: Machine, entry: Machine, k: nat, w: Word)
    requires Enters(caller, entry) && AtPlace(caller, OnStack(8 * k)) == Some(w)
    ensures Cell(entry.stack, 16 + 8 * k) == Some(w)
  {
    var a := caller.sp + 8 * k;
    assert a in caller.stack && a - caller.sp + 16 == 16 + 8 * k;
  }

  /** What a call passes is what the prologue and `va_arg` of a variadic callee find. */
  lemma ArrivesVariadic(caller: Machine, entry: Machine, kinds: seq<Arg>, values: seq<Word>, gpr: seq<Word>)
    requires ArgsAt(caller, kinds, |kinds|) == Some(values) && Enters(caller, entry) && InRegisters(entry, gpr)
    ensures |values| == |kinds| && Arrived(Delivered(Places(kinds), values), entry.stack, 0, gpr)
  {
    hide Delivered, Places, ArgsAt;
    StoredAtPlace(caller, kinds, values, InReg(0));
    var stored := Delivered(Places(kinds), values);
    forall i | 0 <= i < 6 && InReg(i) in stored ensures gpr[i] == stored[InReg(i)] {
      StoredAtPlace(caller, kinds, values, InReg(i));
    }
    hide AtPlace, Enters, InRegisters;
    forall k: nat | OnStack(8 * k) in stored ensures Cell(entry.stack, 0 + 16 + 8 * k) == Some(stored[OnStack(8 * k)]) {
      StoredAtPlace(caller, kinds, values, OnStack(8 * k));
      CellEnters(caller, entry, k, stored[OnStack(8 * k)]);
    }
  }

  /** The argument registers at entry. */
  function ArgumentRegisters(entry: Machine): (gpr: seq<Word>)
    requires forall r: Gpr :: r in entry.gpr
    ensures InRegisters(entry, gpr)
  {
    seq(6, i requires 0 <= i < 6 => entry.gpr[ARG_REGS[i]])
  }

  /** Wherever compiled code stands before an instruction, its save area and its stack arguments are as they
      were: nothing that it does, and no callee, has changed them. */
  lemma AreaStays(u: Compilation, size: nat, s: State, x: XState)
    requires Good(u) && u.area == Some(SaveOffset(size)) && Standing(u, s, x)
    ensures Kept(u.entry.stack, x.m.stack, 0, SaveOffset(size), ArgumentRegisters(u.entry))
  {
    hide SaveOffset, Allocated, SlotsDisjoint, LiveHeld, ArgsWait, RegsIntact, Locals, Pos, Fused;
    var area := SaveOffset(size);
    assert StackIntact(u, x.m.stack);
    forall j | 0 <= j < 6 ensures Cell(x.m.stack, 0 + area + 8 * j) == Some(ArgumentRegisters(u.entry)[j]) {
      assert AreaHolds(u, x.m.stack, 6);
    }
  }

  /** From the call to `va_arg`: if the named parameters take one cell each, then wherever the compiled callee
      stands before an instruction, the i-th `va_arg` finds the i-th unnamed argument of the call, provided that
      none up to it travels in a vector register. */
  lemma UnnamedFound(u: Compilation, caller: Machine, isMethod: bool, named: seq<Param>, unnamed: seq<Param>,
                     values: seq<Word>, size: nat, s: State, x: XState, i: nat)
    requires var kinds := ArgList(isMethod, named + unnamed); ArgsAt(caller, kinds, |kinds|) == Some(values)
    requires Enters(caller, u.entry) && Good(u) && u.area == Some(SaveOffset(size)) && Standing(u, s, x)
    requires OneCellEach(isMethod, named) && Scalars(unnamed) && i < |unnamed|
    requires NoVector(isMethod, named, unnamed[..i + 1])
    ensures |ArgList(isMethod, named)| + i < |values|
    ensures Cell(x.m.stack, Address(PositionAt(0, SaveOffset(size), |named|), i))
        == Some(values[|ArgList(isMethod, named)| + i])
  {
    AreaStays(u, size, s, x);
    var gpr := ArgumentRegisters(u.entry);
    hide *;
    ArrivesVariadic(caller, u.entry, ArgList(isMethod, named + unnamed), values, gpr);
    VariadicTraversal(isMethod, named, unnamed, values, u.entry.stack, x.m.stack, 0, size, gpr, i);
  }
}
