/** Unnamed arguments: the register save area of a variadic function, `va_start` and `va_arg`. */
module Variadic {
  import opened Word64
  import opened IR
  import opened Arguments

  /** Six general registers of 8 bytes and eight vector registers of 16. */
  const SAVE_AREA: nat := 176

  /** Memory by 8-byte cells. */
  type Memory = map<int, Word>

  // ----- the save area -----

  /** The frame grows by the save area, below the locals. */
  function GrownFrame(size: nat): nat {
    (size + 15) / 16 * 16 + SAVE_AREA
  }

  function SaveOffset(size: nat): int {
    0 - GrownFrame(size)
  }

  /** The save area takes 176 bytes, right below the locals rounded up to 16. */
  lemma SaveAreaExact(size: nat, area: nat)
    requires area % 16 == 0
    ensures SaveOffset(size) + 176 >= -(area as int) <==> area >= size
  {
  }

  function Cell(mem: Memory, a: int): Option<Word> {
    if a in mem then Some(mem[a]) else None
  }

  // ----- va_start and va_arg -----

  /** What the traversal depends on: the next register's offset in the save area, the next stack
      argument, and the save area. */
  datatype Position = Position(gp: nat, overflow: int, save: int)

  /** Past the first `n` general arguments. */
  function PositionAt(rbp: int, saveOffset: int, n: nat): Position {
    Position(8 * Min(n, GENERAL), rbp + 16 + 8 * Excess(n, GENERAL), rbp + saveOffset)
  }

  function NextAddress(p: Position): int {
    if p.gp < 48 then p.save + p.gp else p.overflow
  }

  function Advanced(p: Position): Position {
    if p.gp < 48 then p.(gp := p.gp + 8) else p.(overflow := p.overflow + 8)
  }

  class VaList {
    var gpOffset: nat
    var fpOffset: nat
    var overflowArea: int
    var saveArea: int

    ghost function At(): Position
      reads this
    {
      Position(gpOffset, overflowArea, saveArea)
    }

    method Start(rbp: int, saveOffset: int, named: nat)
      modifies this
      ensures At() == PositionAt(rbp, saveOffset, named) && fpOffset == 48
    {
      gpOffset := if named < 6 then named * 8 else 48;
      fpOffset := 48;
      var stack := if named > 6 then (named - 6) * 8 else 0;
      overflowArea := rbp + (16 + stack);
      saveArea := rbp + saveOffset;
    }

    /** The address of the next general argument. */
    method Arg() returns (address: int)
      modifies this`gpOffset, this`overflowArea
      ensures address == NextAddress(old(At())) && At() == Advanced(old(At()))
    {
      address := gpOffset;
      if address >= 48 {
        address := overflowArea;
        overflowArea := overflowArea + 8;
      } else {
        gpOffset := gpOffset + 8;
        address := address + saveArea;
      }
    }
  }

  /** The address that the (i+1)-th `va_arg` from a position returns. */
  function Address(p: Position, i: nat): int
    decreases i
  {
    if i == 0 then NextAddress(p) else Address(Advanced(p), i - 1)
  }

  lemma {:induction false} AddressInOrder(rbp: int, saveOffset: int, n: nat, i: nat)
    ensures var j := n + i;
            Address(PositionAt(rbp, saveOffset, n), i)
              == if j < 6 then rbp + saveOffset + 8 * j else rbp + 16 + 8 * (j - 6)
    decreases i
  {
    if i > 0 {
      assert Advanced(PositionAt(rbp, saveOffset, n)) == PositionAt(rbp, saveOffset, n + 1);
      AddressInOrder(rbp, saveOffset, n + 1, i - 1);
    }
  }

  // ----- which parameter lists `va_start` steps over -----

  /** As many cells as parameters, and nothing on the stack while a general register is left. */
  predicate OneCellEach(isMethod: bool, params: seq<Param>) {
    var t := TakenByParams(isMethod, params);
    t.gp + t.stack == |params| && (t.stack > 0 ==> t.gp == GENERAL)
  }

  lemma {:induction false} RegistersBound(isMethod: bool, params: seq<Param>)
    ensures TakenByParams(isMethod, params).gp <= GENERAL
  {
    if params != [] { RegistersBound(isMethod, params[..|params| - 1]); }
  }

  /** `va_start` counts parameters, not cells: it starts at the first unnamed argument if and only if the
      named parameters take one general register or stack cell each, the registers first. */
  lemma VaStartExact(isMethod: bool, params: seq<Param>, rbp: int, saveOffset: int)
    ensures var t := TakenByParams(isMethod, params);
            PositionAt(rbp, saveOffset, |params|) == Position(8 * t.gp, rbp + 16 + 8 * t.stack, rbp + saveOffset)
            <==> OneCellEach(isMethod, params)
  {
    RegistersBound(isMethod, params);
  }

  function Floats(params: seq<Param>): nat {
    if params == [] then 0
    else Floats(params[..|params| - 1]) + if params[|params| - 1].Floating? then 1 else 0
  }

  lemma {:induction false} TakenInAll(isMethod: bool, params: seq<Param>)
    requires forall p :: p in params ==> Pieces(p) == 1
    ensures Floats(params) <= |params|
    ensures var scalars := |params| - Floats(params) + if isMethod then 1 else 0;
            TakenByParams(isMethod, params)
            == Taken(Min(scalars, GENERAL), Min(Floats(params), VECTOR),
                     Excess(scalars, GENERAL) + Excess(Floats(params), VECTOR))
  {
    if params != [] {
      var p := params[|params| - 1];
      assert Pieces(p) == 1 by { assert p in params; }
      TakenInAll(isMethod, params[..|params| - 1]);
    }
  }

  /** Among parameters of one piece each the condition is that there are as many floating parameters as
      hidden ones: a free function must have none. */
  lemma OnePieceEach(isMethod: bool, params: seq<Param>)
    requires forall p :: p in params ==> Pieces(p) == 1
    ensures OneCellEach(isMethod, params) <==> Floats(params) == if isMethod then 1 else 0
  {
    TakenInAll(isMethod, params);
  }

  /** Lists where `va_start` goes wrong: a floating parameter, a hidden object, an object in two registers,
      and one on the stack before the registers are used up. */
  lemma StartsWrong()
    ensures !OneCellEach(false, [Floating]) && !OneCellEach(true, [Integer])
    ensures !OneCellEach(false, [Object(16)]) && !OneCellEach(false, [Object(24)])
  {
    forall p: Param ensures TakenByParams(false, [p]) == AfterParam(Taken(0, 0, 0), p) {
      assert [p][..0] == [];
      assert TakenByParams(false, []) == Taken(0, 0, 0);
    }
    assert [Integer][..0] == [];
    assert TakenByParams(true, [Integer]) == AfterParam(TakenByParams(true, []), Integer);
  }

  // ----- the traversal -----

  /** What `va_arg` is for: integers, pointers and floating values. */
  predicate Scalars(params: seq<Param>) {
    forall p :: p in params ==> p.Integer? || p.Floating?
  }

  /** The place of the `j`-th general argument when only such are passed. */
  function GeneralPlace(j: nat): Place {
    if j < GENERAL then InReg(j) else OnStack(8 * (j - GENERAL))
  }

  /** None of the unnamed arguments travels in a vector register. */
  predicate NoVector(isMethod: bool, named: seq<Param>, unnamed: seq<Param>) {
    TakenByParams(isMethod, named + unnamed).fp == TakenByParams(isMethod, named).fp
  }

  lemma {:induction false} VectorsBound(isMethod: bool, params: seq<Param>)
    ensures TakenByParams(isMethod, params).fp <= Min(|params|, VECTOR)
  {
    if params != [] { VectorsBound(isMethod, params[..|params| - 1]); }
  }

  lemma NextTaken(isMethod: bool, params: seq<Param>, p: Param)
    ensures TakenByParams(isMethod, params + [p]) == AfterParam(TakenByParams(isMethod, params), p)
    ensures ArgList(isMethod, params + [p]) == AddParam(ArgList(isMethod, params), p)
  {
    assert (params + [p])[..|params|] == params;
  }

  /** Each unnamed argument takes one register or cell. */
  lemma {:induction false} UnnamedTaken(isMethod: bool, named: seq<Param>, unnamed: seq<Param>)
    requires OneCellEach(isMethod, named) && Scalars(unnamed)
    ensures var n, t := TakenByParams(isMethod, named), TakenByParams(isMethod, named + unnamed);
            && n.gp <= t.gp <= GENERAL && n.fp <= t.fp <= VECTOR && n.stack <= t.stack && n.fp <= |named|
            && t.gp + t.stack + t.fp == |named| + |unnamed| + n.fp
            && (t.fp == n.fp && t.stack > 0 ==> t.gp == GENERAL)
    decreases |unnamed|
  {
    VectorsBound(isMethod, named);
    RegistersBound(isMethod, named);
    if unnamed == [] {
      assert named + unnamed == named;
    } else {
      var m := |unnamed| - 1;
      assert named + unnamed == named + unnamed[..m] + [unnamed[m]];
      assert unnamed[m] in unnamed;
      hide TakenByParams;
      UnnamedTaken(isMethod, named, unnamed[..m]);
      NextTaken(isMethod, named + unnamed[..m], unnamed[m]);
    }
  }

  /** The next one is where the next general argument would be if and only if neither it nor one before it
      travels in a vector register. */
  lemma NextPlace(isMethod: bool, named: seq<Param>, unnamed: seq<Param>, p: Param)
    requires OneCellEach(isMethod, named) && Scalars(unnamed) && (p.Integer? || p.Floating?)
    ensures PlaceOf(TakenByParams(isMethod, named + unnamed), Arg(p.Floating?, false))
              == GeneralPlace(|named| + |unnamed|)
        <==> NoVector(isMethod, named, unnamed + [p])
  {
    assert named + (unnamed + [p]) == named + unnamed + [p];
    hide TakenByParams;
    UnnamedTaken(isMethod, named, unnamed);
    NextTaken(isMethod, named + unnamed, p);
  }

  lemma {:induction false} UnnamedLength(isMethod: bool, named: seq<Param>, unnamed: seq<Param>)
    requires Scalars(unnamed)
    ensures |ArgList(isMethod, named + unnamed)| == |ArgList(isMethod, named)| + |unnamed|
    decreases |unnamed|
  {
    if unnamed == [] {
      assert named + unnamed == named;
    } else {
      var m := |unnamed| - 1;
      assert named + unnamed == named + unnamed[..m] + [unnamed[m]] && unnamed[m] in unnamed;
      hide ArgList;
      UnnamedLength(isMethod, named, unnamed[..m]);
      NextTaken(isMethod, named + unnamed[..m], unnamed[m]);
    }
  }

  lemma LastPlaced(isMethod: bool, named: seq<Param>, before: seq<Param>, p: Param)
    requires Scalars(before) && (p.Integer? || p.Floating?)
    ensures var first, args := |ArgList(isMethod, named)|, ArgList(isMethod, named + before);
            && |args| == first + |before|
            && Places(ArgList(isMethod, named + (before + [p])))
               == Places(args) + [PlaceOf(TakenByParams(isMethod, named + before), Arg(p.Floating?, false))]
  {
    hide TakenByParams, ArgList, Places, TakenBy, GpWanted;
    assert named + (before + [p]) == named + before + [p];
    UnnamedLength(isMethod, named, before);
    NextTaken(isMethod, named + before, p);
    CallerCalleeAgree(isMethod, named + before);
    AddPiece(ArgList(isMethod, named + before), Arg(p.Floating?, false));
  }

  lemma {:induction false} UnnamedPlaced(isMethod: bool, named: seq<Param>, unnamed: seq<Param>, i: nat)
    requires Scalars(unnamed) && i < |unnamed|
    ensures var first, args := |ArgList(isMethod, named)|, ArgList(isMethod, named + unnamed);
            && |args| == first + |unnamed|
            && Places(args)[first + i]
               == PlaceOf(TakenByParams(isMethod, named + unnamed[..i]), Arg(unnamed[i].Floating?, false))
    decreases |unnamed|
  {
    var m := |unnamed| - 1;
    var before, p := unnamed[..m], unnamed[m];
    assert unnamed == before + [p] && p in unnamed;
    hide TakenByParams, ArgList, Places, PlaceOf;
    LastPlaced(isMethod, named, before, p);
    UnnamedLength(isMethod, named, unnamed);
    if i < m {
      assert before[..i] == unnamed[..i];
      UnnamedPlaced(isMethod, named, before, i);
    }
  }

  /** Behind named parameters that `va_start` steps over, `va_arg` looks for the i-th unnamed argument where the
      caller put it if and only if none of the arguments up to it travels in a vector register. */
  lemma VaArgExact(isMethod: bool, named: seq<Param>, unnamed: seq<Param>, i: nat)
    requires OneCellEach(isMethod, named) && Scalars(unnamed) && i < |unnamed|
    ensures var first, args := |ArgList(isMethod, named)|, ArgList(isMethod, named + unnamed);
            && |args| == first + |unnamed|
            && (Places(args)[first + i] == GeneralPlace(|named| + i) <==> NoVector(isMethod, named, unnamed[..i + 1]))
  {
    assert unnamed[i] in unnamed && unnamed[..i + 1] == unnamed[..i] + [unnamed[i]];
    hide OneCellEach, NoVector, GeneralPlace, TakenByParams, ArgList, Places, PlaceOf;
    UnnamedPlaced(isMethod, named, unnamed, i);
    NextPlace(isMethod, named, unnamed[..i], unnamed[i]);
  }

  /** A floating value behind one named integer: it travels in the first vector register, and `va_arg` looks in
      the second general one. */
  lemma FloatingMissed()
    ensures OneCellEach(false, [Integer]) && !NoVector(false, [Integer], [Floating])
    ensures Places(ArgList(false, [Integer] + [Floating]))[|ArgList(false, [Integer])|] != GeneralPlace(1)
  {
    OnePieceEach(false, [Integer]);
    assert [Integer][..0] == [] && Floats([]) == 0;
    NextTaken(false, [], Integer);
    NextTaken(false, [Integer], Floating);
    assert [] + [Integer] == [Integer];
    assert [Floating][..1] == [Floating];
    assert TakenByParams(false, []) == Taken(0, 0, 0);
    hide ArgList, Places;
    VaArgExact(false, [Integer], [Floating], 0);
  }

  /** The caller's cells as the callee has them on entry: six registers, and the stack above the frame. */
  ghost predicate Arrived(stored: map<Place, Word>, mem: Memory, rbp: int, gpr: seq<Word>) {
    && |gpr| == 6
    && (forall i :: 0 <= i < 6 && InReg(i) in stored ==> gpr[i] == stored[InReg(i)])
    && (forall k: nat :: OnStack(8 * k) in stored ==> Cell(mem, rbp + 16 + 8 * k) == Some(stored[OnStack(8 * k)]))
  }

  /** The general registers are in the save area, and above the frame all is as the caller left it. */
  ghost predicate Kept(entry: Memory, now: Memory, rbp: int, saveOffset: int, gpr: seq<Word>) {
    && |gpr| == 6
    && (forall j :: 0 <= j < 6 ==> Cell(now, rbp + saveOffset + 8 * j) == Some(gpr[j]))
    && (forall a: int :: a >= rbp + 16 && a in entry ==> Cell(now, a) == Cell(entry, a))
  }

  /** For all named parameters that `va_start` steps over, and any unnamed ones behind them: the i-th `va_arg`
      finds the i-th unnamed argument, in a register or on the stack, if none up to it travels in a vector
      register. */
  lemma VariadicTraversal(isMethod: bool, named: seq<Param>, unnamed: seq<Param>, values: seq<Word>, entry: Memory,
                          now: Memory, rbp: int, size: nat, gpr: seq<Word>, i: nat)
    requires OneCellEach(isMethod, named) && Scalars(unnamed) && i < |unnamed|
    requires NoVector(isMethod, named, unnamed[..i + 1])
    requires |values| == |ArgList(isMethod, named + unnamed)|
    requires Arrived(Delivered(Places(ArgList(isMethod, named + unnamed)), values), entry, rbp, gpr)
    requires Kept(entry, now, rbp, SaveOffset(size), gpr)
    ensures |ArgList(isMethod, named)| + i < |values|
    ensures Cell(now, Address(PositionAt(rbp, SaveOffset(size), |named|), i))
        == Some(values[|ArgList(isMethod, named)| + i])
  {
    hide Delivered, Places, ArgList, TakenBy, GpWanted, Address, OneCellEach, SaveOffset, NoVector, Scalars;
    VaArgExact(isMethod, named, unnamed, i);
    var places, k := Places(ArgList(isMethod, named + unnamed)), |ArgList(isMethod, named)| + i;
    CellsDistinct(ArgList(isMethod, named + unnamed));
    DeliveredEach(places, values);
    AddressInOrder(rbp, SaveOffset(size), |named|, i);
    assert places[k] == GeneralPlace(|named| + i);
    assert Delivered(places, values)[places[k]] == values[k];
  }
}
