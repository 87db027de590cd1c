/** Where arguments travel: the caller's lists of 8-byte pieces and their registers and stack cells, the
    callee's parameters, and the traversal of unnamed arguments. */
module Arguments {
  import opened Word64
  import opened IR

  const GENERAL: nat := 6
  const VECTOR: nat := 8

  /** A parameter: an integer, pointer or reference; a floating value; an object passed by value. */
  datatype Param = Integer | Floating | Object(size: nat)

  /** How many 8-byte pieces it is passed as. */
  function Pieces(p: Param): nat {
    if p.Object? then (p.size + 7) / 8 else 1
  }

  /** Where the caller puts a piece; `OnStack` counts from the stack pointer at the call. */
  datatype Place = InReg(n: nat) | InXmm(n: nat) | OnStack(offset: nat)

  /** Registers and stack cells taken so far. */
  datatype Taken = Taken(gp: nat, fp: nat, stack: nat)

  function Min(a: nat, b: nat): nat { if a < b then a else b }

  function Excess(a: nat, b: nat): nat { if a > b then a - b else 0 }

  // ----- the argument list of a call -----

  /** General registers that the pieces so far ask for. */
  function GpWanted(args: seq<Arg>): nat {
    if args == [] then 0
    else
      var last := args[|args| - 1];
      GpWanted(args[..|args| - 1]) + if last.fp || last.onStack then 0 else 1
  }

  /** An object goes to the stack as a whole when it has more than two pieces or does not fit the registers left. */
  function AddParam(args: seq<Arg>, p: Param): seq<Arg> {
    match p
    case Integer => args + [Arg(false, false)]
    case Floating => args + [Arg(true, false)]
    case Object(_) => args + Same(Arg(false, Pieces(p) > 2 || GpWanted(args) + Pieces(p) > GENERAL), Pieces(p))
  }

  function Same(a: Arg, n: nat): (r: seq<Arg>)
    ensures |r| == n && forall i :: 0 <= i < n ==> r[i] == a
  {
    seq(n, _ => a)
  }

  /** A method call passes the object's address first. */
  function ArgList(isMethod: bool, params: seq<Param>): seq<Arg> {
    if params == [] then (if isMethod then [Arg(false, false)] else [])
    else AddParam(ArgList(isMethod, params[..|params| - 1]), params[|params| - 1])
  }

  /** The kinds of `n` operands; operands without one are plain. */
  function Kinds(kinds: seq<Arg>, n: nat): (r: seq<Arg>)
    ensures |r| == n
  {
    if |kinds| == n then kinds else Same(Arg(false, false), n)
  }

  // ----- placing the pieces -----

  function PlaceOf(t: Taken, a: Arg): Place {
    if !a.onStack && a.fp && t.fp < VECTOR then InXmm(t.fp)
    else if !a.onStack && !a.fp && t.gp < GENERAL then InReg(t.gp)
    else OnStack(8 * t.stack)
  }

  function Take(t: Taken, a: Arg): Taken {
    match PlaceOf(t, a)
    case InXmm(_) => t.(fp := t.fp + 1)
    case InReg(_) => t.(gp := t.gp + 1)
    case OnStack(_) => t.(stack := t.stack + 1)
  }

  function TakenBy(args: seq<Arg>): Taken {
    if args == [] then Taken(0, 0, 0) else Take(TakenBy(args[..|args| - 1]), args[|args| - 1])
  }

  function Places(args: seq<Arg>): (r: seq<Place>)
    ensures |r| == |args|
  {
    if args == [] then []
    else Places(args[..|args| - 1]) + [PlaceOf(TakenBy(args[..|args| - 1]), args[|args| - 1])]
  }

  /** The counting pass before the call, whose register counters run past the registers there are. */
  function Count(t: Taken, a: Arg): Taken {
    if a.onStack then t.(stack := t.stack + 1)
    else if a.fp then Taken(t.gp, t.fp + 1, if t.fp >= VECTOR then t.stack + 1 else t.stack)
    else Taken(t.gp + 1, t.fp, if t.gp >= GENERAL then t.stack + 1 else t.stack)
  }

  function Counted(args: seq<Arg>): Taken {
    if args == [] then Taken(0, 0, 0) else Count(Counted(args[..|args| - 1]), args[|args| - 1])
  }

  // ----- the parameters of the callee -----

  /** Consecutive stack cells or registers. */
  function Row(t: Taken, onStack: bool, n: nat): (r: seq<Incoming>)
    ensures |r| == n && forall i :: 0 <= i < n ==>
                                      r[i] == if onStack then ArgStack(16 + 8 * (t.stack + i)) else ArgReg(t.gp + i)
  {
    seq(n, i requires i >= 0 => if onStack then ArgStack(16 + 8 * (t.stack + i)) else ArgReg(t.gp + i))
  }

  /** The cells a parameter is stored from, given what those before it took. */
  function ParamCells(t: Taken, p: Param): (r: seq<Incoming>)
    ensures |r| == Pieces(p)
  {
    match p
    case Object(_) => Row(t, Pieces(p) > 2 || t.gp + Pieces(p) > GENERAL, Pieces(p))
    case Integer => [if t.gp < GENERAL then ArgReg(t.gp) else ArgStack(16 + 8 * t.stack)]
    case Floating => [if t.fp < VECTOR then ArgXmm(t.fp) else ArgStack(16 + 8 * t.stack)]
  }

  function AfterParam(t: Taken, p: Param): Taken {
    match p
    case Object(_) =>
      if Pieces(p) > 2 || t.gp + Pieces(p) > GENERAL then t.(stack := t.stack + Pieces(p))
                  else t.(gp := t.gp + Pieces(p))
    case Integer => if t.gp < GENERAL then t.(gp := t.gp + 1) else t.(stack := t.stack + 1)
    case Floating => if t.fp < VECTOR then t.(fp := t.fp + 1) else t.(stack := t.stack + 1)
  }

  function TakenByParams(isMethod: bool, params: seq<Param>): Taken {
    if params == [] then Taken(if isMethod then 1 else 0, 0, 0)
    else AfterParam(TakenByParams(isMethod, params[..|params| - 1]), params[|params| - 1])
  }

  function CellsOf(isMethod: bool, params: seq<Param>): seq<Incoming> {
    if params == [] then (if isMethod then [ArgReg(0)] else [])
    else CellsOf(isMethod, params[..|params| - 1])
         + ParamCells(TakenByParams(isMethod, params[..|params| - 1]), params[|params| - 1])
  }

  // ----- caller and callee agree -----

  /** The caller's cell as the callee sees it: the return address and the saved frame pointer lie between. */
  function Seen(p: Place): Incoming {
    match p
    case InReg(n) => ArgReg(n)
    case InXmm(n) => ArgXmm(n)
    case OnStack(offset) => ArgStack(16 + offset)
  }

  function SeenAll(places: seq<Place>): (r: seq<Incoming>)
    ensures |r| == |places| && forall i :: 0 <= i < |places| ==> r[i] == Seen(places[i])
  {
    seq(|places|, i requires 0 <= i < |places| => Seen(places[i]))
  }

  lemma NoPieces()
    ensures GpWanted([]) == 0 && TakenBy([]) == Taken(0, 0, 0) && Places([]) == [] && SeenAll([]) == []
  {
  }

  /** Appending one piece. */
  lemma AddPiece(args: seq<Arg>, a: Arg)
    ensures GpWanted(args + [a]) == GpWanted(args) + if a.fp || a.onStack then 0 else 1
    ensures TakenBy(args + [a]) == Take(TakenBy(args), a)
    ensures Places(args + [a]) == Places(args) + [PlaceOf(TakenBy(args), a)]
    ensures Counted(args + [a]) == Count(Counted(args), a)
  {
    assert (args + [a])[..|args|] == args;
  }

  lemma SeenNext(places: seq<Place>, p: Place)
    ensures SeenAll(places + [p]) == SeenAll(places) + [Seen(p)]
  {
  }

  /** An object's pieces take consecutive stack cells, or consecutive registers when there are enough. */
  lemma {:induction false} AddObject(args: seq<Arg>, onStack: bool, n: nat)
    requires onStack || TakenBy(args).gp + n <= GENERAL
    ensures var all := args + Same(Arg(false, onStack), n);
            var t := TakenBy(args);
            && GpWanted(all) == GpWanted(args) + (if onStack then 0 else n)
            && TakenBy(all) == (if onStack then t.(stack := t.stack + n) else t.(gp := t.gp + n))
            && SeenAll(Places(all)) == SeenAll(Places(args)) + Row(t, onStack, n)
  {
    hide GpWanted, TakenBy, Places, Counted;
    var a := Arg(false, onStack);
    var t := TakenBy(args);
    if n == 0 {
      assert args + Same(a, 0) == args;
      assert SeenAll(Places(args)) + Row(t, onStack, 0) == SeenAll(Places(args));
    } else {
      AddObject(args, onStack, n - 1);
      var init := args + Same(a, n - 1);
      assert args + Same(a, n) == init + [a];
      AddPiece(init, a);
      SeenNext(Places(init), PlaceOf(TakenBy(init), a));
      assert Row(t, onStack, n) == Row(t, onStack, n - 1) + [Seen(PlaceOf(TakenBy(init), a))];
    }
  }

  /** One more parameter on both sides. */
  lemma ParamAgrees(args: seq<Arg>, t: Taken, cells: seq<Incoming>, p: Param)
    requires SeenAll(Places(args)) == cells && TakenBy(args) == t && t.gp == Min(GENERAL, GpWanted(args))
    ensures var more := AddParam(args, p);
            && SeenAll(Places(more)) == cells + ParamCells(t, p)
            && TakenBy(more) == AfterParam(t, p)
            && AfterParam(t, p).gp == Min(GENERAL, GpWanted(more))
  {
    hide GpWanted, TakenBy, Places, Counted;
    if p.Object? {
      AddObject(args, Pieces(p) > 2 || GpWanted(args) + Pieces(p) > GENERAL, Pieces(p));
    } else {
      AddPiece(args, Arg(p.Floating?, false));
      SeenNext(Places(args), PlaceOf(t, Arg(p.Floating?, false)));
    }
  }

  /** The caller's registers and cells are, piece by piece, the callee's: the same registers, the same stack cells. */
  lemma {:induction false} CallerCalleeAgree(isMethod: bool, params: seq<Param>)
    ensures SeenAll(Places(ArgList(isMethod, params))) == CellsOf(isMethod, params)
    ensures TakenBy(ArgList(isMethod, params)) == TakenByParams(isMethod, params)
    ensures TakenByParams(isMethod, params).gp == Min(GENERAL, GpWanted(ArgList(isMethod, params)))
  {
    hide GpWanted, TakenBy, Places, Counted, AddParam, ParamCells, AfterParam;
    if params == [] {
      NoPieces();
      AddPiece([], Arg(false, false));
      SeenNext([], InReg(0));
      assert [] + [Arg(false, false)] == [Arg(false, false)];
    } else {
      var before, p := params[..|params| - 1], params[|params| - 1];
      CallerCalleeAgree(isMethod, before);
      ParamAgrees(ArgList(isMethod, before), TakenByParams(isMethod, before), CellsOf(isMethod, before), p);
    }
  }

  // ----- the registers and cells of the convention -----

  /** How many of the parameters are of this kind. */
  function CountOf(params: seq<Param>, p: Param): nat {
    if params == [] then 0 else CountOf(params[..|params| - 1], p) + if params[|params| - 1] == p then 1 else 0
  }

  predicate Scalar(params: seq<Param>) {
    forall p :: p in params ==> p.Integer? || p.Floating?
  }

  /** As many eight-byte pieces as hold the object; others take one. */
  lemma PiecesExact(p: Param)
    ensures p.Object? ==> 8 * Pieces(p) >= p.size && 8 * Pieces(p) < p.size + 8
    ensures !p.Object? ==> Pieces(p) == 1
  {
  }

  /** An object of at most 16 bytes travels in as many general registers as it has pieces, if there are enough left;
      every other one on the stack as a whole. */
  lemma ObjectCells(isMethod: bool, params: seq<Param>, size: nat, j: nat)
    requires j < (size + 7) / 8
    ensures var t, n := TakenByParams(isMethod, params), |CellsOf(isMethod, params)|;
            var cells := CellsOf(isMethod, params + [Object(size)]);
            var t' := TakenByParams(isMethod, params + [Object(size)]);
            && |cells| == n + (size + 7) / 8 && cells[..n] == CellsOf(isMethod, params)
            && if size <= 16 && t.gp + (size + 7) / 8 <= 6
               then cells[n + j] == ArgReg(t.gp + j) && t' == t.(gp := t.gp + (size + 7) / 8)
               else cells[n + j] == ArgStack(16 + 8 * (t.stack + j)) && t' == t.(stack := t.stack + (size + 7) / 8)
  {
    OneMoreParam(isMethod, params, Object(size));
    hide CellsOf, TakenByParams;
    var t := TakenByParams(isMethod, params);
    ObjectPieces(t, size);
    var n := |CellsOf(isMethod, params)|;
    assert CellsOf(isMethod, params + [Object(size)])[n + j] == ParamCells(t, Object(size))[j];
  }

  lemma OneMoreParam(isMethod: bool, params: seq<Param>, p: Param)
    ensures var t := TakenByParams(isMethod, params);
            && CellsOf(isMethod, params + [p]) == CellsOf(isMethod, params) + ParamCells(t, p)
            && TakenByParams(isMethod, params + [p]) == AfterParam(t, p)
  {
    assert (params + [p])[..|params|] == params;
  }

  lemma ObjectPieces(t: Taken, size: nat)
    ensures var n, cells := (size + 7) / 8, ParamCells(t, Object(size));
            && |cells| == n
            && if size <= 16 && t.gp + n <= 6
               then (forall j :: 0 <= j < n ==> cells[j] == ArgReg(t.gp + j))
                    && AfterParam(t, Object(size)) == t.(gp := t.gp + n)
               else (forall j :: 0 <= j < n ==> cells[j] == ArgStack(16 + 8 * (t.stack + j)))
                    && AfterParam(t, Object(size)) == t.(stack := t.stack + n)
  {
    assert Pieces(Object(size)) == (size + 7) / 8 && (Pieces(Object(size)) > 2 <==> size > 16);
  }

  lemma {:induction false} ScalarsTaken(isMethod: bool, params: seq<Param>)
    requires Scalar(params)
    ensures var a, b := CountOf(params, Integer) + (if isMethod then 1 else 0), CountOf(params, Floating);
            TakenByParams(isMethod, params)
            == Taken(if a < 6 then a else 6, if b < 8 then b else 8,
                     (if a > 6 then a - 6 else 0) + if b > 8 then b - 8 else 0)
    ensures |CellsOf(isMethod, params)| == |params| + if isMethod then 1 else 0
  {
    if params != [] {
      assert params[|params| - 1] in params;
      ScalarsTaken(isMethod, params[..|params| - 1]);
    }
  }

  lemma {:induction false} CellsPrefix(isMethod: bool, params: seq<Param>, i: nat)
    requires i <= |params|
    ensures CellsOf(isMethod, params[..i]) <= CellsOf(isMethod, params)
    decreases |params| - i
  {
    if i < |params| {
      NextCells(isMethod, params, i);
      CellsPrefix(isMethod, params, i + 1);
    } else {
      assert params[..i] == params;
    }
  }

  /** Six integers travel in general registers and eight floating values in vector registers, each kind counted by
      itself, the object of a method as the first integer; the others follow on the stack, 8 bytes apart. */
  lemma ScalarCells(isMethod: bool, params: seq<Param>, i: nat)
    requires Scalar(params) && i < |params|
    ensures var a, b := CountOf(params[..i], Integer) + (if isMethod then 1 else 0), CountOf(params[..i], Floating);
            var k := i + if isMethod then 1 else 0;
            && k < |CellsOf(isMethod, params)|
            && CellsOf(isMethod, params)[k]
               == if params[i].Integer? && a < 6 then ArgReg(a)
                  else if params[i].Floating? && b < 8 then ArgXmm(b)
                  else ArgStack(16 + 8 * ((if a > 6 then a - 6 else 0) + if b > 8 then b - 8 else 0))
  {
    hide CellsOf, TakenByParams, CountOf;
    forall p | p in params[..i] ensures p.Integer? || p.Floating? { assert p in params; }
    assert params[i] in params;
    ScalarsTaken(isMethod, params[..i]);
    NextCells(isMethod, params, i);
    CellsPrefix(isMethod, params, i + 1);
  }

  // ----- no piece is lost -----

  ghost predicate Within(t: Taken, p: Place) {
    match p
    case InReg(n) => n < t.gp
    case InXmm(n) => n < t.fp
    case OnStack(offset) => offset % 8 == 0 && offset < 8 * t.stack
  }

  /** Every piece has a cell of its own; the cells reserved are exactly those written, numbered without gaps. */
  lemma {:induction false} CellsDistinct(args: seq<Arg>)
    ensures forall i, j :: 0 <= i < j < |args| ==> Places(args)[i] != Places(args)[j]
    ensures forall i :: 0 <= i < |args| ==> Within(TakenBy(args), Places(args)[i])
    ensures TakenBy(args).gp <= GENERAL && TakenBy(args).fp <= VECTOR
    ensures Counted(args).stack == TakenBy(args).stack
    ensures Min(Counted(args).gp, GENERAL) == TakenBy(args).gp && Min(Counted(args).fp, VECTOR) == TakenBy(args).fp
  {
    if args != [] {
      CellsDistinct(args[..|args| - 1]);
    }
  }

  lemma {:induction false} CellsUsed(args: seq<Arg>, k: nat)
    requires k < TakenBy(args).stack
    ensures OnStack(8 * k) in Places(args)
  {
    if args != [] {
      var init := args[..|args| - 1];
      if k < TakenBy(init).stack { CellsUsed(init, k); }
    }
  }

  /** The cells after the caller has stored the values in order. */
  function Delivered<V>(places: seq<Place>, values: seq<V>): map<Place, V>
    requires |places| == |values|
  {
    if places == [] then map[]
    else
      var n := |places| - 1;
      Delivered(places[..n], values[..n])[places[n] := values[n]]
  }

  lemma {:induction false} DeliveredEach<V>(places: seq<Place>, values: seq<V>)
    requires |places| == |values|
    requires forall i, j :: 0 <= i < j < |places| ==> places[i] != places[j]
    ensures forall i :: 0 <= i < |places| ==> places[i] in Delivered(places, values)
                                              && Delivered(places, values)[places[i]] == values[i]
  {
    if places != [] { DeliveredEach(places[..|places| - 1], values[..|places| - 1]); }
  }

  /** What the callee finds where it looks. */
  function Found<V>(stored: map<Place, V>, cell: Incoming): Option<V> {
    match cell
    case ArgReg(n) => Lookup(stored, InReg(n))
    case ArgXmm(n) => Lookup(stored, InXmm(n))
    case ArgStack(offset) => if offset < 16 then None else Lookup(stored, OnStack(offset - 16))
  }

  function Lookup<V>(stored: map<Place, V>, p: Place): Option<V> {
    if p in stored then Some(stored[p]) else None
  }

  /** Every piece arrives: the callee's i-th cell holds the caller's i-th value. */
  lemma EveryPieceArrives<V>(isMethod: bool, params: seq<Param>, values: seq<V>)
    requires |values| == |ArgList(isMethod, params)|
    ensures var stored := Delivered(Places(ArgList(isMethod, params)), values);
            && |CellsOf(isMethod, params)| == |values|
            && forall i :: 0 <= i < |values| ==> Found(stored, CellsOf(isMethod, params)[i]) == Some(values[i])
  {
    hide ArgList, Places, CellsOf, Delivered, TakenBy, TakenByParams, GpWanted, Counted;
    var args := ArgList(isMethod, params);
    CallerCalleeAgree(isMethod, params);
    CellsDistinct(args);
    DeliveredEach(Places(args), values);
    forall i | 0 <= i < |values| ensures Found(Delivered(Places(args), values), CellsOf(isMethod, params)[i])
        == Some(values[i]) {
      assert CellsOf(isMethod, params)[i] == Seen(Places(args)[i]);
    }
  }

  // ----- the loops -----

  lemma NextPiece(args: seq<Arg>, i: nat)
    requires i < |args|
    ensures var a := args[i];
            && args[..i + 1] == args[..i] + [a]
            && GpWanted(args[..i + 1]) == GpWanted(args[..i]) + (if a.fp || a.onStack then 0 else 1)
            && TakenBy(args[..i + 1]) == Take(TakenBy(args[..i]), a)
            && Places(args[..i + 1]) == Places(args[..i]) + [PlaceOf(TakenBy(args[..i]), a)]
            && Counted(args[..i + 1]) == Count(Counted(args[..i]), a)
  {
    assert args[..i + 1] == args[..i] + [args[i]];
    AddPiece(args[..i], args[i]);
  }

  /** A piece's place depends on the pieces before it only. */
  lemma {:induction false} PlaceAt(args: seq<Arg>, i: nat)
    requires i < |args|
    ensures Places(args)[i] == PlaceOf(TakenBy(args[..i]), args[i])
    decreases |args|
  {
    var n := |args| - 1;
    if i < n {
      PlaceAt(args[..n], i);
      assert args[..n][..i] == args[..i];
    }
  }

  lemma NextParam(isMethod: bool, params: seq<Param>, i: nat)
    requires i < |params|
    ensures ArgList(isMethod, params[..i + 1]) == AddParam(ArgList(isMethod, params[..i]), params[i])
  {
    assert params[..i + 1][..i] == params[..i];
  }

  method CountGpWanted(args: seq<Arg>) returns (used: nat)
    ensures used == GpWanted(args)
  {
    hide GpWanted, TakenBy, Places, Counted;
    used := 0;
    NoPieces();
    for a := 0 to |args|
      invariant used == GpWanted(args[..a])
    {
      NextPiece(args, a);
      if !args[a].fp && !args[a].onStack { used := used + 1; }
    }
    assert args[..|args|] == args;
  }

  /** The argument list as lowering builds it, counting the registers wanted so far for each object. */
  method BuildArgList(isMethod: bool, params: seq<Param>) returns (args: seq<Arg>)
    ensures args == ArgList(isMethod, params)
  {
    hide GpWanted;
    args := if isMethod then [Arg(false, false)] else [];
    for i := 0 to |params|
      invariant args == ArgList(isMethod, params[..i])
    {
      ghost var before := args;
      NextParam(isMethod, params, i);
      hide ArgList;
      if params[i].Object? {
        var chunks := Pieces(params[i]);
        var gpUsed := CountGpWanted(args);
        var onStack := chunks > 2 || gpUsed + chunks > GENERAL;
        for chunk := 0 to chunks
          invariant args == before + Same(Arg(false, onStack), chunk)
        {
          args := args + [Arg(false, onStack)];
        }
      } else {
        args := args + [Arg(params[i].Floating?, false)];
      }
    }
    assert params[..|params|] == params;
  }

  method CountStackCells(args: seq<Arg>) returns (stack: nat)
    ensures stack == TakenBy(args).stack
  {
    hide GpWanted, TakenBy, Places, Counted;
    var gp, fp := 0, 0;
    stack := 0;
    NothingCounted();
    for i := 0 to |args|
      invariant Taken(gp, fp, stack) == Counted(args[..i])
    {
      NextPiece(args, i);
      if args[i].onStack {
        stack := stack + 1;
      } else if args[i].fp {
        if fp >= VECTOR { stack := stack + 1; }
        fp := fp + 1;
      } else {
        if gp >= GENERAL { stack := stack + 1; }
        gp := gp + 1;
      }
    }
    assert args[..|args|] == args;
    CellsDistinct(args);
  }

  lemma NothingCounted()
    ensures Counted([]) == Taken(0, 0, 0)
  {
  }

  /** The places of a call's pieces, and the stack space reserved for them before they are stored: a
      multiple of 16 bytes that holds the stack cells written. */
  method PlaceArguments(args: seq<Arg>) returns (places: seq<Place>, space: nat)
    ensures places == Places(args)
    ensures space % 16 == 0 && 8 * TakenBy(args).stack <= space < 8 * TakenBy(args).stack + 16
  {
    hide GpWanted, TakenBy, Places, Counted;
    var stack := CountStackCells(args);
    space := if stack > 0 then (stack * 8 + 15) / 16 * 16 else 0;
    var gp, fp, index := 0, 0, 0;
    places := [];
    NoPieces();
    for i := 0 to |args|
      invariant Taken(gp, fp, index) == TakenBy(args[..i]) && places == Places(args[..i])
    {
      NextPiece(args, i);
      if !args[i].onStack && args[i].fp && fp < VECTOR {
        places := places + [InXmm(fp)];
        fp := fp + 1;
      } else if !args[i].onStack && !args[i].fp && gp < GENERAL {
        places := places + [InReg(gp)];
        gp := gp + 1;
      } else {
        places := places + [OnStack(index * 8)];
        index := index + 1;
      }
    }
    assert args[..|args|] == args;
  }

  lemma NextCells(isMethod: bool, params: seq<Param>, i: nat)
    requires i < |params|
    ensures CellsOf(isMethod, params[..i + 1])
        == CellsOf(isMethod, params[..i]) + ParamCells(TakenByParams(isMethod, params[..i]), params[i])
    ensures TakenByParams(isMethod, params[..i + 1]) == AfterParam(TakenByParams(isMethod, params[..i]), params[i])
  {
    assert params[..i + 1][..i] == params[..i];
  }

  /** The cells of one parameter. */
  method ReceiveParam(p: Param, reg: nat, fp: nat, stack: nat)
      returns (cells: seq<Incoming>, reg': nat, fp': nat, stack': nat)
    ensures cells == ParamCells(Taken(reg, fp, stack), p)
        && Taken(reg', fp', stack') == AfterParam(Taken(reg, fp, stack), p)
  {
    reg', fp', stack' := reg, fp, stack;
    cells := [];
    if p.Object? {
      var chunks := Pieces(p);
      var onStack := chunks > 2 || reg + chunks > GENERAL;
      for chunk := 0 to chunks
        invariant cells == Row(Taken(reg, fp, stack), onStack, chunk)
        invariant if onStack then reg' == reg && stack' == stack + chunk else reg' == reg + chunk && stack' == stack
      {
        if onStack {
          cells := cells + [ArgStack(16 + stack' * 8)];
          stack' := stack' + 1;
        } else {
          cells := cells + [ArgReg(reg')];
          reg' := reg' + 1;
        }
      }
    } else if p.Floating? && fp < VECTOR {
      cells := [ArgXmm(fp)];
      fp' := fp + 1;
    } else if p.Integer? && reg < GENERAL {
      cells := [ArgReg(reg)];
      reg' := reg + 1;
    } else {
      cells := [ArgStack(16 + stack * 8)];
      stack' := stack + 1;
    }
  }

  /** The cells from which a function stores its parameters. */
  method ReceiveParams(isMethod: bool, params: seq<Param>) returns (cells: seq<Incoming>)
    ensures cells == CellsOf(isMethod, params)
  {
    var reg, fp, stack := 0, 0, 0;
    cells := [];
    if isMethod {
      cells := [ArgReg(reg)];
      reg := reg + 1;
    }
    for i := 0 to |params|
      invariant cells == CellsOf(isMethod, params[..i]) && Taken(reg, fp, stack) == TakenByParams(isMethod, params[..i])
    {
      NextCells(isMethod, params, i);
      hide CellsOf, TakenByParams, ParamCells, AfterParam;
      var more;
      more, reg, fp, stack := ReceiveParam(params[i], reg, fp, stack);
      cells := cells + more;
    }
    assert params[..|params|] == params;
  }
}
