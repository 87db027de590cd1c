/** The back end from source to x86-64: lowering, any number of optimisation rounds, register allocation
    and emission, composed. */
module Compiler {
  import opened Word64
  import opened IR
  import opened Simulation
  import opened LoweredForm
  import opened Liveness
  import LinearScan
  import opened RegAlloc
  import opened Function
  import opened Pipeline
  import opened Placement
  import X86
  import opened CodeGen
  import opened CodeLayout
  import opened Residence
  import opened CompiledRuns
  import Source
  import opened Lowering
  import LoweringRun
  import opened FunctionMeaning
  import opened LocalSlots
  import StmtForm
  import StmtMeaning
  import opened Variadic

  /** Everything after lowering, as the compiler runs it: optimise, allocate, emit. `n` is the register count. */
  method Generate(fn: IRFunction, level: int, n: nat, base: nat, area: Option<int>)
      returns (asm: seq<X86.Asm>, a: Allocation, ghost start: seq<int>, ghost end: seq<int>)
    requires Lowered(fn.insts) && Numbered(fn.insts, n)
    modifies fn
    ensures fn.insts == Iterate(old(fn.insts), Rounds(level))
    ensures Allocates(fn.insts, n, base, start, end, a) && Economical(fn.insts, n, start, end, a)
    ensures asm == Assembled(fn.insts, a, base, area)
  {
    hide *;
    IterateNumbered(fn.insts, Rounds(level), n);
    RunPipeline(fn, level);
    a, start, end := RegAlloc.Run(fn.insts, n, base);
    UsedLength(fn.insts, n, base, start, end, a);
    BinsNumbered(fn.insts, n);
    asm := EmitFunction(fn.insts, n, a, base, area);
  }

  lemma UsedLength(code: Code, n: nat, base: nat, start: seq<int>, end: seq<int>, a: Allocation)
    requires Allocates(code, n, base, start, end, a)
    ensures |a.used| == |a.save| == LinearScan.REG_COUNT
  {
  }

  lemma BinsNumbered(code: Code, n: nat)
    requires Numbered(code, n)
    ensures forall k :: 0 <= k < |code| && code[k].Bin? ==> 1 <= code[k].d <= n
  {
    forall k | 0 <= k < |code| && code[k].Bin? ensures 1 <= code[k].d <= n {
      assert code[k].d in Occurring(code[k]);
    }
  }

  lemma IterateNumbered(code: Code, rounds: nat, n: nat)
    requires Lowered(code) && Numbered(code, n)
    ensures Lowered(Iterate(code, rounds)) && Numbered(Iterate(code, rounds), n)
  {
    hide *;
    var env: Env :| true;
    IterateKeepsForm(env, code, rounds);
    NumberedKept(code, Iterate(code, rounds), n);
  }

  /** The intervals of an allocation cover all that is live. */
  lemma AllocationCovers(code: Code, n: nat, base: nat, start: seq<int>, end: seq<int>, a: Allocation)
    requires Allocates(code, n, base, start, end, a) && Lowered(code) && Numbered(code, n)
    ensures |start| == |end| == n + 1 && IntervalsCover(code, n, start, end) && UniqueMarks(code) && TargetsExist(code)
        && ArgumentsFirst(code)
  {
    LoweredMarks(code);
    assert ArgumentsFirst(code);
    hide NeverEarly, Lowered, UniqueMarks, TargetsExist, ArgumentsFirst, LaidOut, UsesMarked, Separated, CallSafe;
    LoweredNeverEarly(code);
    IntervalsCoverLiveness(code, n, start, end);
  }

  /** A compilation of optimised code: allocated, with the slots of the original apart and its caller
      keeping the convention. */
  ghost predicate Compiles(u: Compilation, original: Code, rounds: nat) {
    && u.code == Iterate(original, rounds)
    && Allocates(u.code, u.n, u.w.base, u.start, u.end, u.a)
    && SlotsDisjoint(u.(code := original)) && CastsWiden(u.w.env) && Entered(u.(code := original))
  }

  /** No pass names another slot, so the slots of the result are as far apart as those of the original. */
  lemma SlotsStay(u: Compilation, original: Code)
    requires NoNew(original, u.code) && SlotsDisjoint(u.(code := original))
    ensures SlotsDisjoint(u)
  {
    forall i | 0 <= i < |u.code| ensures SlotIn(u.code[i], u.w.cells) {
      if SlotOf(u.code[i]).Some? {
        assert NamesSlot(u.code, SlotOf(u.code[i]).value);
        var j :| 0 <= j < |original| && SlotOf(original[j]) == SlotOf(u.code[i]);
      }
    }
  }

  /** No pass stores an argument from elsewhere. */
  lemma EnteredStays(u: Compilation, original: Code)
    requires NoNew(original, u.code) && Entered(u.(code := original))
    ensures Entered(u)
  {
    forall i | 0 <= i < |u.code| && u.code[i].StoreArg? ensures ArgArrived(u.w.env, u.entry, u.code[i].arg) {
      assert Receives(u.code, u.code[i]);
    }
    hide ArgArrived;
  }

  lemma CompilesWell(u: Compilation, original: Code, rounds: nat)
    requires Compiles(u, original, rounds) && Lowered(original) && Numbered(original, u.n)
    ensures Good(u)
  {
    hide Iterate, Lowered, NeverEarly, SlotsDisjoint, CastsWiden, Entered, Numbered, NoNew;
    IterateNumbered(original, rounds, u.n);
    IterateKeepsForm(u.w.env, original, rounds);
    SlotsStay(u, original);
    EnteredStays(u, original);
    AllocationCovers(u.code, u.n, u.w.base, u.start, u.end, u.a);
  }

  /** What the optimiser counts on: the function is defined wherever its slots lie, and they lie somewhere. */
  ghost predicate WellDefined(u: Compilation, f: Frame, original: Code) {
    InPlace(u.w.env, f) && Spacious(f) && NeverTraps(u.w.env, f, original, Initial(u))
  }

  lemma OptimisedRuns(u: Compilation, f: Frame, original: Code, rounds: nat)
    requires Lowered(original) && WellDefined(u, f, original) && Compiles(u, original, rounds)
    ensures PreservesFrom(u.w.env, original, u.code, Initial(u))
  {
    hide Lowered, InPlace, Spacious, NeverTraps, Iterate, PreservesFrom;
    Placement.PipelinePreserves(u.w.env, f, original, X86.Locals(u.w, u.entry.stack), rounds);
  }

  /** Optimised and compiled code returns what the IR returns. */
  lemma OptimisedReturns(u: Compilation, f: Frame, original: Code, rounds: nat, final: State)
    requires Lowered(original) && Numbered(original, u.n) && WellDefined(u, f, original)
    requires Compiles(u, original, rounds)
    requires final.Done? && Reaches(u.w.env, original, Initial(u), final)
    ensures XReturns(u, final)
  {
    hide Lowered, Numbered, WellDefined, Reaches, Compiles, Good, Iterate, XReturns;
    OptimisedRuns(u, f, original, rounds);
    CompilesWell(u, original, rounds);
    CompiledReturns(u, final);
  }

  /** Optimised and compiled code that runs on does so without faulting, with the same stores and calls. */
  lemma OptimisedRunsOn(u: Compilation, f: Frame, original: Code, rounds: nat, trace: Trace, n: nat)
    requires Lowered(original) && Numbered(original, u.n) && WellDefined(u, f, original)
    requires Compiles(u, original, rounds)
    requires RunsForever(u.w.env, original, Initial(u))
    ensures X86.XSteps(u.w, Program(u), X86.Going(0, u.entry), n).Going?
    ensures Performs(u.w.env, original, Initial(u), trace) <==> XPerforms(u, trace)
  {
    hide Lowered, Numbered, WellDefined, Compiles, Good, Iterate, XPerforms, Performs, RunsForever, Program;
    OptimisedRuns(u, f, original, rounds);
    CompilesWell(u, original, rounds);
    CompiledRunsOn(u, n);
    CompiledPerforms(u, trace);
  }

  // ----- from source to machine code -----

  /** The bytes reserved before lowering: the declared variables, and the save area below them if there are
      unnamed arguments. */
  function Reserved(size: nat, variadic: bool): nat {
    if variadic then GrownFrame(size) else size
  }

  function AreaOf(size: nat, variadic: bool): Option<int> {
    if variadic then Some(SaveOffset(size)) else None
  }

  /** The cells of the local area outside the save area. */
  function SlotCells(base: nat, area: Option<int>): set<int> {
    set k | k in FrameCells(base) && (area.Some? ==> k + 8 <= area.value || area.value + SAVE_AREA <= k)
  }

  /** What the compiler makes of a function: its lowered body after some optimisation rounds, allocated
      over a local area that holds its locals, its save area and temporaries. */
  ghost predicate CompiledFrom(u: Compilation, params: seq<Param>, body: Source.Stmt, size: nat, variadic: bool,
                               first: Label, rounds: nat) {
    var room := Reserved(size, variadic);
    && u.code == Iterate(LowerFunction(params, body, room, first).code, rounds)
    && u.n == LowerFunction(params, body, room, first).c.vreg
    && u.w.base == LocalArea(params, body, room, first) && u.area == AreaOf(size, variadic)
    && u.w.cells == SlotCells(u.w.base, u.area)
    && Allocates(u.code, u.n, u.w.base, u.start, u.end, u.a)
  }

  function Variables(params: seq<Param>, body: Source.Stmt): set<int> {
    ParamSlots(params) + StmtLocals(body)
  }

  /** The outside world: the variables that have an address lie apart from each other and from other memory,
      pointers and callees reach no other slot, a cast is the machine's. */
  ghost predicate Surroundings(env: Env, f: Frame, variables: set<int>) {
    && InPlace(env, f) && Spacious(f) && f.cells <= variables
    && (forall k: int :: env.shared(k) ==> k in variables)
    && CastsWiden(env)
  }

  /** The body is never undefined from this store, wherever the variables lie: no division traps, no pointer
      is followed to where nothing is. */
  ghost predicate BodyDefined(env: Env, f: Frame, params: seq<Param>, body: Source.Stmt, slots: Slots) {
    forall env': Env, fuel: nat :: Elsewhere(env, env') && InPlace(env', f) ==>
      !Source.Exec(env', body, Entry(env', params, slots), false, false, fuel).Fault?
  }

  /** A call by the convention: the return address on top of the stack, each argument where its parameter
      expects it, and memory of arbitrary content below. */
  ghost predicate Called(u: Compilation, params: seq<Param>) {
    && u.entry.sp == 8 && 8 in u.entry.stack && u.entry.trace == []
    && (forall r: X86.Gpr :: r in u.entry.gpr)
    && X86.Locals(u.w, u.entry.stack).Keys == u.w.cells
    && forall i :: 0 <= i < |params| ==> ArgArrived(u.w.env, u.entry, params[i].arg)
  }

  /** The slots of the lowered code are distinct 8-byte cells inside the local area, and no slot reaches into
      the save area. */
  lemma FrameSafe(u: Compilation, f: Frame, params: seq<Param>, body: Source.Stmt, size: nat, variadic: bool,
                  first: Label, rounds: nat)
    requires Declared(params, body, size) && CompiledFrom(u, params, body, size, variadic, first, rounds)
    requires Surroundings(u.w.env, f, Variables(params, body))
    ensures SlotsDisjoint(u.(code := LowerFunction(params, body, Reserved(size, variadic), first).code))
  {
    hide *;
    var lowered := u.(code := LowerFunction(params, body, Reserved(size, variadic), first).code);
    CompiledCodeOf(u, params, body, size, variadic, first, rounds);
    forall i | 0 <= i < |lowered.code| ensures SlotIn(lowered.code[i], u.w.cells) {
      SlotNamed(lowered.code, i, u.w.cells);
      if SlotOf(lowered.code[i]).Some? {
        SlotInCells(params, body, size, variadic, first, SlotOf(lowered.code[i]).value);
      }
    }
    VariablesInFrame(params, body, size, variadic, first);
    CellsFit(lowered, f, Variables(params, body));
  }

  lemma ReservedEven(params: seq<Param>, body: Source.Stmt, size: nat, variadic: bool)
    requires Declared(params, body, size)
    ensures Declared(params, body, Reserved(size, variadic)) && Reserved(size, variadic) % 8 == 0
    ensures size <= Reserved(size, variadic) && (!variadic ==> Reserved(size, variadic) == size)
    ensures variadic ==> SaveOffset(size) == -(Reserved(size, variadic) as int)
                         && size + SAVE_AREA <= Reserved(size, variadic)
  {
    GrownEven(size);
    hide ParamSlots, StmtLocals, GrownFrame;
  }

  lemma GrownEven(size: nat)
    ensures GrownFrame(size) % 8 == 0 && size + SAVE_AREA <= GrownFrame(size)
  {
  }

  lemma SlotInCells(params: seq<Param>, body: Source.Stmt, size: nat, variadic: bool, first: Label, k: int)
    requires Declared(params, body, size)
    requires NamesSlot(LowerFunction(params, body, Reserved(size, variadic), first).code, k)
    ensures k in SlotCells(LocalArea(params, body, Reserved(size, variadic), first), AreaOf(size, variadic))
  {
    var room := Reserved(size, variadic);
    hide LowerFunction, LocalArea, ParamSlots, StmtLocals, NamesSlot, Reserved, Declared, SaveOffset;
    ReservedEven(params, body, size, variadic);
    SlotsInFrame(params, body, room, first, k);
    FunctionTidy(params, body, room, first);
    var code := LowerFunction(params, body, room, first).code;
    var i := SlotIndex(code, k);
    ApartFromSaved(code, i, params, body, size, room, LowerFunction(params, body, room, first).c.stack, k);
  }

  lemma SlotIndex(code: Code, k: int) returns (i: nat)
    requires NamesSlot(code, k)
    ensures i < |code| && SlotOf(code[i]) == Some(k)
  {
    hide SlotOf;
    i :| 0 <= i < |code| && SlotOf(code[i]) == Some(k);
  }

  lemma ApartFromSaved(code: Code, i: nat, params: seq<Param>, body: Source.Stmt, size: nat, room: nat, stack: nat,
                       k: int)
    requires Declared(params, body, size) && i < |code| && SlotOf(code[i]) == Some(k) && room % 8 == 0
    requires AllTidy(code, ParamSlots(params) + StmtLocals(body), room, stack)
    ensures k + 8 + room <= 0 || 0 <= k + size
  {
    hide SlotOf, ParamSlots, StmtLocals;
    assert Tidy(code[i], ParamSlots(params) + StmtLocals(body), room, stack);
  }

  lemma VariablesInFrame(params: seq<Param>, body: Source.Stmt, size: nat, variadic: bool, first: Label)
    requires Declared(params, body, size)
    ensures var base := LocalArea(params, body, Reserved(size, variadic), first);
            var area := AreaOf(size, variadic);
            && Variables(params, body) <= SlotCells(base, area)
            && (area.Some? ==> 0 <= area.value + base && area.value + SAVE_AREA <= 0)
  {
    hide LowerFunction, ParamSlots, StmtLocals, Reserved, SaveOffset;
    ReservedEven(params, body, size, variadic);
    FunctionTidy(params, body, Reserved(size, variadic), first);
    var base := LocalArea(params, body, Reserved(size, variadic), first);
    forall k | k in Variables(params, body) ensures k in SlotCells(base, AreaOf(size, variadic)) {
      assert k in ParamSlots(params) + StmtLocals(body);
    }
  }

  /** The whole frame: a slot of the optimised code is an aligned cell of the local area, apart from the save
      area, from every saved register and every spilled one, all of them inside a frame of a multiple of 16
      bytes. */
  lemma FrameLaidOut(u: Compilation, params: seq<Param>, body: Source.Stmt, size: nat, variadic: bool, first: Label,
                     rounds: nat, k: int)
    requires Declared(params, body, size) && CompiledFrom(u, params, body, size, variadic, first, rounds)
    requires NamesSlot(u.code, k)
    ensures X86.IsLocal(u.w.base, k) && k % 8 == 0
    ensures variadic ==> k + 8 <= SaveOffset(size) || SaveOffset(size) + SAVE_AREA <= k
    ensures u.w.base <= FrameSize(u.w.base, u.a) && FrameSize(u.w.base, u.a) % 16 == 0
    ensures |u.a.used| == |u.a.save| == LinearScan.REG_COUNT && |u.a.reg| == |u.a.spill| == |u.start|
    ensures forall r :: 0 <= r < 5 && u.a.used[r] ==>
                          CellInside(u.a.save[r], FrameSize(u.w.base, u.a), u.w.base) && X86.Apart(k, u.a.save[r])
    ensures forall v :: 1 <= v < |u.start| && Spilled(u.a.reg, u.start, v) ==>
              CellInside(u.a.spill[v], FrameSize(u.w.base, u.a), u.w.base) && X86.Apart(k, u.a.spill[v])
  {
    var code := LowerFunction(params, body, Reserved(size, variadic), first).code;
    hide LowerFunction, Iterate, Lowered, Declared, Reserved;
    StmtForm.FunctionHasForm(params, body, Reserved(size, variadic), first);
    IterateKeepsForm(u.w.env, code, rounds);
    SlotInCells(params, body, size, variadic, first, k);
    FrameDisjoint(u.w.base, u.start, u.a);
  }

  lemma SlotNamed(code: Code, i: nat, cells: set<int>)
    requires i < |code|
    ensures SlotOf(code[i]).Some? ==> NamesSlot(code, SlotOf(code[i]).value)
    ensures (SlotOf(code[i]).Some? ==> SlotOf(code[i]).value in cells) ==> SlotIn(code[i], cells)
  {
  }

  lemma CellsFit(u: Compilation, f: Frame, variables: set<int>)
    requires u.w.cells == SlotCells(u.w.base, u.area) && Surroundings(u.w.env, f, variables) && variables <= u.w.cells
    requires u.area.Some? ==> 0 <= u.area.value + u.w.base && u.area.value + SAVE_AREA <= 0
    requires forall i :: 0 <= i < |u.code| ==> SlotIn(u.code[i], u.w.cells)
    ensures SlotsDisjoint(u)
  {
    hide SlotIn;
  }

  lemma CompiledCodeOf(u: Compilation, params: seq<Param>, body: Source.Stmt, size: nat, variadic: bool, first: Label,
                       rounds: nat)
    requires CompiledFrom(u, params, body, size, variadic, first, rounds)
    ensures var room := Reserved(size, variadic);
            && u.code == Iterate(LowerFunction(params, body, room, first).code, rounds)
            && u.n == LowerFunction(params, body, room, first).c.vreg
            && u.w.base == LocalArea(params, body, room, first)
    ensures u.area == AreaOf(size, variadic) && u.w.cells == SlotCells(u.w.base, u.area)
    ensures Allocates(u.code, u.n, u.w.base, u.start, u.end, u.a)
  {
  }

  /** Arguments are stored from where the caller put them. */
  lemma EntersWell(u: Compilation, params: seq<Param>, body: Source.Stmt, size: nat, variadic: bool, first: Label)
    requires Called(u, params)
    ensures Entered(u.(code := LowerFunction(params, body, Reserved(size, variadic), first).code))
  {
    var code := LowerFunction(params, body, Reserved(size, variadic), first).code;
    StmtForm.FunctionHasForm(params, body, Reserved(size, variadic), first);
    hide LowerFunction, ArgArrived, Lowered;
    forall i | 0 <= i < |code| && code[i].StoreArg? ensures ArgArrived(u.w.env, u.entry, code[i].arg) {
      assert Receives(code, code[i]);
      assert code[i] in StoreParams(params);
      var j :| 0 <= j < |params| && StoreParams(params)[j] == code[i];
    }
  }

  /** All hypotheses of the chain follow from the source, the convention and the outside world. */
  lemma FunctionCompiles(u: Compilation, f: Frame, params: seq<Param>, body: Source.Stmt, size: nat, variadic: bool,
                         first: Label, rounds: nat)
    requires Declared(params, body, size) && CompiledFrom(u, params, body, size, variadic, first, rounds)
    requires Surroundings(u.w.env, f, Variables(params, body)) && Called(u, params)
    ensures var code := LowerFunction(params, body, Reserved(size, variadic), first).code;
            && Lowered(code) && Numbered(code, u.n) && UniqueMarks(code) && Compiles(u, code, rounds)
            && WellFormed(u.w.env, params, body, Reserved(size, variadic))
  {
    hide *;
    var code := LowerFunction(params, body, Reserved(size, variadic), first).code;
    FrameSafe(u, f, params, body, size, variadic, first, rounds);
    EntersWell(u, params, body, size, variadic, first);
    StmtForm.FunctionHasForm(params, body, Reserved(size, variadic), first);
    CompiledCodeOf(u, params, body, size, variadic, first, rounds);
    MentionedNumbered(code, u.n);
    LoweredMarks(code);
    Outside(u, f, Variables(params, body), code, rounds);
    SurroundingsAre(u.w.env, f, Variables(params, body));
    ReservedEven(params, body, size, variadic);
    DeclaredInScope(u.w.env, u.w.env, f, params, body, size, Reserved(size, variadic));
  }

  lemma Outside(u: Compilation, f: Frame, variables: set<int>, code: Code, rounds: nat)
    requires u.code == Iterate(code, rounds) && Allocates(u.code, u.n, u.w.base, u.start, u.end, u.a)
    requires SlotsDisjoint(u.(code := code)) && Surroundings(u.w.env, f, variables) && Entered(u.(code := code))
    ensures Compiles(u, code, rounds)
  {
    hide Iterate, Allocates, SlotsDisjoint, Entered;
  }

  lemma SurroundingsAre(env: Env, f: Frame, variables: set<int>)
    requires Surroundings(env, f, variables)
    ensures InPlace(env, f) && Spacious(f) && Elsewhere(env, env)
  {
    hide InPlace;
  }

  /** The source is in scope, wherever the variables lie. */
  lemma DeclaredInScope(env: Env, env': Env, f: Frame, params: seq<Param>, body: Source.Stmt, size: nat, room: nat)
    requires Declared(params, body, size) && Surroundings(env, f, Variables(params, body))
    requires Elsewhere(env, env') && InPlace(env', f) && size <= room
    ensures WellFormed(env', params, body, room)
  {
    forall k | k in Variables(params, body) ensures k + room >= 0 {
      assert k in ParamSlots(params) + StmtLocals(body);
    }
    hide ParamSlots;
    StmtInFrame(body, StmtLocals(body), room);
  }

  /** What a body that is never undefined lowers to does not trap. */
  lemma LoweredDefined(u: Compilation, f: Frame, params: seq<Param>, body: Source.Stmt, size: nat, variadic: bool,
                       first: Label)
    requires Declared(params, body, size) && Surroundings(u.w.env, f, Variables(params, body))
    requires UniqueMarks(LowerFunction(params, body, Reserved(size, variadic), first).code)
    requires BodyDefined(u.w.env, f, params, body, X86.Locals(u.w, u.entry.stack))
    ensures WellDefined(u, f, LowerFunction(params, body, Reserved(size, variadic), first).code)
  {
    hide *;
    var code := LowerFunction(params, body, Reserved(size, variadic), first).code;
    var slots := X86.Locals(u.w, u.entry.stack);
    ReservedEven(params, body, size, variadic);
    forall env': Env, n: nat | Elsewhere(u.w.env, env') && InPlace(env', f)
      ensures !Steps(env', code, Start(slots), n).Trap?
    {
      DeclaredInScope(u.w.env, env', f, params, body, size, Reserved(size, variadic));
      BodyAt(u.w.env, env', f, params, body, slots, n);
      FunctionRuns(env', params, body, Reserved(size, variadic), first, slots, n);
      NoTrapFrom(env', code, slots, Source.Exec(env', body, Entry(env', params, slots), false, false, n), n);
    }
    SurroundingsAre(u.w.env, f, Variables(params, body));
    InitialIs(u);
    DefinedWell(u, f, code, slots);
  }

  lemma BodyAt(env: Env, env': Env, f: Frame, params: seq<Param>, body: Source.Stmt, slots: Slots, fuel: nat)
    requires BodyDefined(env, f, params, body, slots) && Elsewhere(env, env') && InPlace(env', f)
    ensures !Source.Exec(env', body, Entry(env', params, slots), false, false, fuel).Fault?
  {
    hide InPlace, Elsewhere, Source.Exec;
  }

  /** Code that returns, or still runs after `n` steps, has not trapped by then. */
  lemma NoTrapFrom(env: Env, code: Code, slots: Slots, r: Source.Ending, n: nat)
    requires FunctionEnds(env, code, slots, Source.AsResult(r), n) && !r.Fault?
    ensures !Steps(env, code, Start(slots), n).Trap?
  {
    var s := Start(slots);
    hide Step, Steps, Start;
    var e := Source.AsResult(r);
    var m: nat;
    if e.Timeout? {
      m :| m >= n && StmtMeaning.StandsWith(env, code, s, m, e.s.trace);
    } else {
      m :| Steps(env, code, s, m) == Done(e.w, e.s.trace);
    }
    if Steps(env, code, s, n).Trap? && n <= m { StaysStopped(env, code, s, n, m); }
    if m <= n && !Steps(env, code, s, m).Run? { StaysStopped(env, code, s, m, n); }
  }

  lemma DefinedWell(u: Compilation, f: Frame, code: Code, slots: Slots)
    requires InPlace(u.w.env, f) && Spacious(f) && Initial(u) == Start(slots)
    requires forall env': Env, n: nat :: Elsewhere(u.w.env, env') && InPlace(env', f) ==>
               !Steps(env', code, Start(slots), n).Trap?
    ensures WellDefined(u, f, code)
  {
    hide InPlace, Elsewhere, Steps, Start;
  }

  /** Whenever the body of a function returns a value, so does its machine code, after the same stores and
      calls, for any number of optimisation rounds. */
  lemma FunctionReturns(u: Compilation, f: Frame, params: seq<Param>, body: Source.Stmt, size: nat, variadic: bool,
                        first: Label, rounds: nat, fuel: nat)
    requires Declared(params, body, size) && CompiledFrom(u, params, body, size, variadic, first, rounds)
    requires Surroundings(u.w.env, f, Variables(params, body)) && Called(u, params)
    requires BodyDefined(u.w.env, f, params, body, X86.Locals(u.w, u.entry.stack))
    ensures var slots := X86.Locals(u.w, u.entry.stack);
            var r := Source.AsResult(Source.Exec(u.w.env, body, Entry(u.w.env, params, slots), false, false, fuel));
            r.Returned? ==> XReturns(u, Done(r.w, r.s.trace))
  {
    hide *;
    var code := LowerFunction(params, body, Reserved(size, variadic), first).code;
    var slots := X86.Locals(u.w, u.entry.stack);
    InitialIs(u);
    FunctionCompiles(u, f, params, body, size, variadic, first, rounds);
    LoweredDefined(u, f, params, body, size, variadic, first);
    FunctionRuns(u.w.env, params, body, Reserved(size, variadic), first, slots, fuel);
    var r := Source.AsResult(Source.Exec(u.w.env, body, Entry(u.w.env, params, slots), false, false, fuel));
    if r.Returned? {
      ReturnIs(u.w.env, code, slots, r, fuel);
      OptimisedReturns(u, f, code, rounds, Done(r.w, r.s.trace));
    }
  }

  lemma InitialIs(u: Compilation)
    ensures Initial(u) == Start(X86.Locals(u.w, u.entry.stack))
  {
  }

  lemma ReturnIs(env: Env, code: Code, slots: Slots, r: Source.Ending, fuel: nat)
    requires FunctionEnds(env, code, slots, r, fuel) && r.Returned?
    ensures Reaches(env, code, Start(slots), Done(r.w, r.s.trace))
  {
  }

  /** A body that never ends compiles to machine code that runs on without a fault and performs the stores and
      calls of the body, in the same order, and nothing else. */
  lemma FunctionRunsForever(u: Compilation, f: Frame, params: seq<Param>, body: Source.Stmt, size: nat, variadic: bool,
                            first: Label, rounds: nat, n: nat, trace: Trace)
    requires Declared(params, body, size) && CompiledFrom(u, params, body, size, variadic, first, rounds)
    requires Surroundings(u.w.env, f, Variables(params, body)) && Called(u, params)
    requires BodyDefined(u.w.env, f, params, body, X86.Locals(u.w, u.entry.stack))
    requires NeverEnds(u.w.env, body, Entry(u.w.env, params, X86.Locals(u.w, u.entry.stack)))
    ensures X86.XSteps(u.w, Program(u), X86.Going(0, u.entry), n).Going?
    ensures XPerforms(u, trace) <==> BodyPerforms(u.w.env, body,
                                                  Entry(u.w.env, params, X86.Locals(u.w, u.entry.stack)), trace)
  {
    hide *;
    var code := LowerFunction(params, body, Reserved(size, variadic), first).code;
    InitialIs(u);
    FunctionCompiles(u, f, params, body, size, variadic, first, rounds);
    LoweredDefined(u, f, params, body, size, variadic, first);
    FunctionRunsOn(u.w.env, params, body, Reserved(size, variadic), first, X86.Locals(u.w, u.entry.stack));
    OptimisedRunsOn(u, f, code, rounds, trace, n);
  }
}
