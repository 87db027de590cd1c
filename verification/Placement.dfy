/** Where the slots of a frame lie is not for the program to know. A function is defined if it does not trap
    wherever they lie; then no access through a pointer reaches a slot whose address the list does not take,
    and the passes, which count on that, keep all its runs. */
module Placement {
  import opened Word64
  import opened IR
  import opened Simulation
  import opened LoweredForm
  import opened Function
  import opened Pipeline

  /** The slots that pointers may reach, 8-byte cells each, and the addresses where a cell may lie. */
  datatype Frame = Frame(cells: set<int>, room: set<Word>)

  /** Room for one cell more than there are. */
  ghost predicate Spacious(f: Frame) {
    (forall w :: w in f.room ==> w % 8 == 0) && (f.cells == {} || |f.room| > |f.cells|)
  }

  /** The address lies in the cell at `w`. */
  predicate Inside(a: Word, w: Word) {
    0 <= a - w < 8
  }

  /** The cells lie apart from each other and from all other memory, and an address in one reaches its slot. */
  ghost predicate InPlace(env: Env, f: Frame) {
    && (forall k :: k in f.cells ==> env.slotAddress(k) in f.room)
    && (forall j, k :: j in f.cells && k in f.cells && j != k ==> env.slotAddress(j) != env.slotAddress(k))
    && (forall a: Word, k: int :: k in f.cells && Inside(a, env.slotAddress(k)) ==> env.alias(a) == Some(k))
    && (forall a: Word :: env.alias(a).Some? ==>
                            env.alias(a).value in f.cells && Inside(a, env.slotAddress(env.alias(a).value)))
    && (forall a: Word, w: Word :: w in f.room && Inside(a, w) ==> !env.valid(a))
  }

  /** The same world with the slots elsewhere. */
  ghost predicate Elsewhere(env: Env, env': Env) {
    env' == env.(slotAddress := env'.slotAddress, alias := env'.alias)
  }

  /** The run does not trap, wherever the slots lie. */
  ghost predicate NeverTraps(env: Env, f: Frame, code: Code, s: State) {
    forall env': Env, n: nat :: Elsewhere(env, env') && InPlace(env', f) ==> !Steps(env', code, s, n).Trap?
  }

  // ----- moving one slot -----

  lemma {:induction false} ImageBound(cells: set<int>, place: int -> Word)
    ensures |set k | k in cells :: place(k)| <= |cells|
    decreases cells
  {
    if k: int :| k in cells {
      var rest := cells - {k};
      ImageBound(rest, place);
      assert (set j | j in cells :: place(j)) == (set j | j in rest :: place(j)) + {place(k)};
    } else {
      assert (set k | k in cells :: place(k)) == {};
    }
  }

  /** There is room for the cell of `k` somewhere else. */
  lemma Vacant(f: Frame, place: int -> Word) returns (w: Word)
    requires Spacious(f) && f.cells != {}
    ensures w in f.room && forall k :: k in f.cells ==> place(k) != w
  {
    var image := set k | k in f.cells :: place(k);
    ImageBound(f.cells, place);
    if f.room <= image {
      SubsetSize(f.room, image);
      assert false;
    }
    w :| w in f.room && w !in image;
  }

  lemma {:induction false} SubsetSize(a: set<Word>, b: set<Word>)
    requires a <= b
    ensures |a| <= |b|
    decreases a
  {
    if a != {} {
      var w :| w in a;
      SubsetSize(a - {w}, b - {w});
    }
  }

  function AddressWith(env: Env, k: int, w: Word, j: int): Word {
    if j == k then w else env.slotAddress(j)
  }

  function Moved(env: Env, k: int, w: Word): Env {
    env.(slotAddress := j => AddressWith(env, k, w, j),
         alias := (a: Word) => if Inside(a, w) then Some(k) else if env.alias(a) == Some(k) then None else env.alias(a))
  }

  lemma MovedLaidOut(env: Env, f: Frame, k: int, w: Word)
    requires InPlace(env, f) && Spacious(f) && k in f.cells && w in f.room
    requires forall j :: j in f.cells ==> env.slotAddress(j) != w
    ensures InPlace(Moved(env, k, w), f) && Elsewhere(env, Moved(env, k, w))
  {
    var env' := Moved(env, k, w);
    forall a: Word, j: int | j in f.cells && Inside(a, env'.slotAddress(j)) ensures env'.alias(a) == Some(j) {
      ApartOrSame(a, w, env.slotAddress(j));
    }
  }

  /** Cells at multiples of 8 are the same or apart. */
  lemma ApartOrSame(a: Word, v: Word, w: Word)
    requires v % 8 == 0 && w % 8 == 0 && v != w
    ensures !(Inside(a, v) && Inside(a, w))
  {
  }

  // ----- a list that does not take the address of a slot -----

  /** The address that the instruction accesses through a pointer. */
  function Accessed(inst: Inst, d: Data): Option<Word> {
    match inst
    case Load(_, p, off, _, _) =>
      var a := Val(d.regs, p); if a.Some? then Some(Wrap(a.value + off)) else None
    case Store(p, off, _, _) =>
      var a := Val(d.regs, p); if a.Some? then Some(Wrap(a.value + off)) else None
    case _ => None
  }

  predicate Touches(env: Env, inst: Inst, d: Data, k: int) {
    var a := Accessed(inst, d);
    a.Some? && env.alias(a.value) == Some(k)
  }

  /** What an instruction does depends on the address of a slot only if it takes it, and on which slot lies at
      an address only if it accesses that. */
  lemma ExecElsewhere(env: Env, env': Env, inst: Inst, d: Data)
    requires Elsewhere(env, env') && (inst.AddrStack? ==> env'.slotAddress(inst.slot) == env.slotAddress(inst.slot))
    ensures var a := Accessed(inst, d);
            && (a.None? || env'.alias(a.value) == env.alias(a.value) ==> Exec(env', inst, d) == Exec(env, inst, d))
            && (a.Some? && !Accessible(env, a.value) ==> Exec(env, inst, d).Stuck?)
            && (a.Some? && !Accessible(env', a.value) ==> Exec(env', inst, d).Stuck?)
  {
    if inst.Call? {
      CallElsewhere(env, env', inst, d);
    } else {
      hide Wrap, Alu, Answer, Shown;
    }
  }

  lemma CallElsewhere(env: Env, env': Env, inst: Inst, d: Data)
    requires Elsewhere(env, env') && inst.Call?
    ensures Exec(env', inst, d) == Exec(env, inst, d)
  {
    assert Shown(env', d.slots) == Shown(env, d.slots);
    forall t: Target, ws: seq<Word>
      ensures Answer(env', d.trace, t, ws, d.slots) == Answer(env, d.trace, t, ws, d.slots)
    {
      AnswerElsewhere(env, env', d.trace, t, ws, d.slots);
    }
    hide Answer, Shown;
  }

  lemma AnswerElsewhere(env: Env, env': Env, trace: Trace, t: Target, ws: seq<Word>, slots: Slots)
    requires Elsewhere(env, env')
    ensures Answer(env', trace, t, ws, slots) == Answer(env, trace, t, ws, slots)
  {
    assert Shown(env', slots) == Shown(env, slots);
    var a, b := Answer(env, trace, t, ws, slots), Answer(env', trace, t, ws, slots);
    assert forall k :: k in slots ==> a.slots[k] == b.slots[k];
    assert a.slots == b.slots;
  }

  lemma InPlaceAt(env: Env, f: Frame, a: Word)
    requires InPlace(env, f)
    ensures env.alias(a).Some? ==>
              var k := env.alias(a).value;
              k in f.cells && Inside(a, env.slotAddress(k)) && env.slotAddress(k) in f.room && !env.valid(a)
  {
  }

  /** What lies at an address when the slot `k` has moved. */
  lemma MovedAccess(env: Env, f: Frame, k: int, w: Word, a: Word)
    requires InPlace(env, f) && Spacious(f) && k in f.cells && w in f.room
    requires forall j :: j in f.cells ==> env.slotAddress(j) != w
    ensures var env' := Moved(env, k, w);
            && (env'.alias(a) == env.alias(a) || !Accessible(env, a) || !Accessible(env', a))
            && (env.alias(a) == Some(k) ==> !Accessible(env', a))
  {
    InPlaceAt(env, f, a);
    if env.alias(a).Some? { ApartOrSame(a, w, env.slotAddress(env.alias(a).value)); }
  }

  lemma MovedElsewhere(env: Env, k: int, w: Word)
    ensures Elsewhere(env, Moved(env, k, w))
    ensures forall j: int :: j != k ==> Moved(env, k, w).slotAddress(j) == env.slotAddress(j)
  {
  }

  /** An instruction that does not take the address of the moved slot does the same, or traps on one side. */
  lemma MovedStep(env: Env, f: Frame, k: int, w: Word, inst: Inst, d: Data)
    requires InPlace(env, f) && Spacious(f) && k in f.cells && w in f.room && (inst.AddrStack? ==> inst.slot != k)
    requires forall j :: j in f.cells ==> env.slotAddress(j) != w
    ensures var a, b := Exec(env, inst, d), Exec(Moved(env, k, w), inst, d); a == b || a.Stuck? || b.Stuck?
    ensures Touches(env, inst, d, k) ==> Exec(Moved(env, k, w), inst, d).Stuck?
  {
    hide Exec, InPlace, Spacious, Moved, Elsewhere, Accessible, Accessed;
    MovedElsewhere(env, k, w);
    ExecElsewhere(env, Moved(env, k, w), inst, d);
    var a := Accessed(inst, d);
    if a.Some? { MovedAccess(env, f, k, w, a.value); }
  }

  lemma {:induction false} MovedRun(env: Env, f: Frame, k: int, w: Word, code: Code, s: State, n: nat)
    requires InPlace(env, f) && Spacious(f) && k in f.cells && w in f.room && k !in Taken(code)
    requires forall j :: j in f.cells ==> env.slotAddress(j) != w
    requires !Steps(env, code, s, n).Trap? && !Steps(Moved(env, k, w), code, s, n).Trap?
    ensures Steps(env, code, s, n) == Steps(Moved(env, k, w), code, s, n)
  {
    hide *;
    if n > 0 {
      var env' := Moved(env, k, w);
      NextStep(env, code, s, n);
      NextStep(env', code, s, n);
      MovedRun(env, f, k, w, code, s, n - 1);
      MovedNext(env, f, k, w, code, Steps(env, code, s, n - 1));
    } else {
      ZeroSteps(env, code, s);
      ZeroSteps(Moved(env, k, w), code, s);
    }
  }

  lemma MovedNext(env: Env, f: Frame, k: int, w: Word, code: Code, t: State)
    requires InPlace(env, f) && Spacious(f) && k in f.cells && w in f.room && k !in Taken(code)
    requires forall j :: j in f.cells ==> env.slotAddress(j) != w
    requires !Step(env, code, t).Trap? && !Step(Moved(env, k, w), code, t).Trap?
    ensures Step(Moved(env, k, w), code, t) == Step(env, code, t)
  {
    hide *;
    if t.Run? && t.pc < |code| {
      TakesNot(code, t.pc, k);
      MovedStep(env, f, k, w, code[t.pc], t.data);
      StuckTraps(env, code, t);
      StuckTraps(Moved(env, k, w), code, t);
    }
    SameStep(env, Moved(env, k, w), code, t);
  }

  /** The last of `n` steps. */
  lemma NextStep(env: Env, code: Code, s: State, n: nat)
    requires n > 0
    ensures Steps(env, code, s, n) == Step(env, code, Steps(env, code, s, n - 1))
    ensures !Steps(env, code, s, n).Trap? ==> !Steps(env, code, s, n - 1).Trap?
  {
    StepsAdd(env, code, s, n - 1, 1);
    OneStep(env, code, Steps(env, code, s, n - 1));
  }

  lemma TakesNot(code: Code, i: nat, k: int)
    requires i < |code| && k !in Taken(code)
    ensures code[i].AddrStack? ==> code[i].slot != k
  {
  }

  lemma OneStep(env: Env, code: Code, s: State)
    ensures Steps(env, code, s, 1) == Step(env, code, s)
  {
    assert Steps(env, code, s, 1) == Steps(env, code, Step(env, code, s), 0);
  }

  /** In a defined run no access through a pointer reaches a slot whose address the list does not take: with
      the slot elsewhere the run would trap there. */
  lemma NeverTouched(env: Env, f: Frame, code: Code, s: State, n: nat, k: int)
    requires InPlace(env, f) && Spacious(f) && NeverTraps(env, f, code, s) && k !in Taken(code)
    ensures var t := Steps(env, code, s, n); t.Run? && t.pc < |code| ==> !Touches(env, code[t.pc], t.data, k)
  {
    var t := Steps(env, code, s, n);
    if t.Run? && t.pc < |code| && Touches(env, code[t.pc], t.data, k) {
      TouchedIsCell(env, f, code[t.pc], t.data, k);
      var w := Vacant(f, env.slotAddress);
      var env' := Moved(env, k, w);
      MovedLaidOut(env, f, k, w);
      StaysDefined(env, env', f, code, s, n);
      StaysDefined(env, env', f, code, s, n + 1);
      StaysDefined(env, env, f, code, s, n);
      hide *;
      MovedRun(env, f, k, w, code, s, n);
      TakesNot(code, t.pc, k);
      MovedStep(env, f, k, w, code[t.pc], t.data);
      StepsAdd(env', code, s, n, 1);
      OneStep(env', code, t);
      StuckTraps(env', code, t);
      assert false;
    }
  }

  lemma TouchedIsCell(env: Env, f: Frame, inst: Inst, d: Data, k: int)
    requires InPlace(env, f) && Touches(env, inst, d, k)
    ensures k in f.cells
  {
  }

  lemma StaysDefined(env: Env, env': Env, f: Frame, code: Code, s: State, n: nat)
    requires NeverTraps(env, f, code, s) && Elsewhere(env, env') && InPlace(env', f)
    ensures !Steps(env', code, s, n).Trap? && NeverTraps(env', f, code, s)
  {
    forall e: Env, m: nat | Elsewhere(env', e) && InPlace(e, f) ensures !Steps(e, code, s, m).Trap? {
      assert Elsewhere(env, e);
    }
  }

  lemma StuckTraps(env: Env, code: Code, s: State)
    requires s.Run? && s.pc < |code|
    ensures Exec(env, code[s.pc], s.data).Stuck? ==> Step(env, code, s).Trap?
  {
  }

  // ----- the world in which pointers reach taken slots only -----

  function Narrow(env: Env, taken: set<int>): Env {
    env.(alias := (a: Word) => var k := env.alias(a); if k.Some? && k.value !in taken then None else k)
  }

  /** There an instruction does the same, or traps at an access to another slot. */
  lemma NarrowStep(env: Env, f: Frame, taken: set<int>, inst: Inst, d: Data)
    requires InPlace(env, f)
    ensures var a, b := Exec(env, inst, d), Exec(Narrow(env, taken), inst, d);
            && (a == b || b.Stuck?)
            && ((forall k :: k !in taken ==> !Touches(env, inst, d, k)) ==> a == b)
  {
    hide Exec, InPlace, Accessible, Accessed, Narrow, Elsewhere;
    var a := Accessed(inst, d);
    NarrowElsewhere(env, taken);
    ExecElsewhere(env, Narrow(env, taken), inst, d);
    if a.Some? {
      NarrowAccess(env, f, taken, a.value);
      if Narrow(env, taken).alias(a.value) != env.alias(a.value) {
        var k := env.alias(a.value).value;
        assert k !in taken && Touches(env, inst, d, k);
      }
    }
  }

  lemma NarrowElsewhere(env: Env, taken: set<int>)
    ensures Elsewhere(env, Narrow(env, taken)) && Narrow(env, taken).slotAddress == env.slotAddress
  {
  }

  lemma NarrowAccess(env: Env, f: Frame, taken: set<int>, a: Word)
    requires InPlace(env, f)
    ensures var env' := Narrow(env, taken);
            && (env'.alias(a) == env.alias(a) || !Accessible(env', a))
            && (env'.alias(a) == env.alias(a) || (env.alias(a).Some? && env.alias(a).value !in taken))
  {
    InPlaceAt(env, f, a);
  }

  lemma NothingElseTouched(env: Env, f: Frame, code: Code, s: State, n: nat)
    requires InPlace(env, f) && Spacious(f) && NeverTraps(env, f, code, s)
    ensures var t := Steps(env, code, s, n);
            t.Run? && t.pc < |code| ==> forall k :: k !in Taken(code) ==> !Touches(env, code[t.pc], t.data, k)
  {
    hide *;
    var t := Steps(env, code, s, n);
    if t.Run? && t.pc < |code| {
      forall k | k !in Taken(code) ensures !Touches(env, code[t.pc], t.data, k) {
        NeverTouched(env, f, code, s, n, k);
      }
    }
  }

  /** A defined run is the same there. */
  lemma {:induction false} NarrowRun(env: Env, f: Frame, code: Code, s: State, n: nat)
    requires InPlace(env, f) && Spacious(f) && NeverTraps(env, f, code, s)
    ensures Steps(Narrow(env, Taken(code)), code, s, n) == Steps(env, code, s, n)
  {
    hide *;
    if n > 0 {
      var env' := Narrow(env, Taken(code));
      NarrowRun(env, f, code, s, n - 1);
      var t := Steps(env, code, s, n - 1);
      NextStep(env, code, s, n);
      NextStep(env', code, s, n);
      if t.Run? && t.pc < |code| {
        NothingElseTouched(env, f, code, s, n - 1);
        NarrowStep(env, f, Taken(code), code[t.pc], t.data);
      }
      SameStep(env, env', code, t);
    } else {
      ZeroSteps(env, code, s);
      ZeroSteps(Narrow(env, Taken(code)), code, s);
    }
  }

  lemma SameStep(env: Env, env': Env, code: Code, t: State)
    requires t.Run? && t.pc < |code| ==> Exec(env', code[t.pc], t.data) == Exec(env, code[t.pc], t.data)
    ensures Step(env', code, t) == Step(env, code, t)
  {
    hide Exec;
  }

  /** A run there that does not trap is the run in the whole world. */
  lemma {:induction false} WideRun(env: Env, f: Frame, taken: set<int>, code: Code, s: State, n: nat)
    requires InPlace(env, f) && !Steps(Narrow(env, taken), code, s, n).Trap?
    ensures Steps(env, code, s, n) == Steps(Narrow(env, taken), code, s, n)
  {
    hide *;
    if n > 0 {
      var env' := Narrow(env, taken);
      var t := Steps(env', code, s, n - 1);
      NextStep(env, code, s, n);
      NextStep(env', code, s, n);
      WideRun(env, f, taken, code, s, n - 1);
      if t.Run? && t.pc < |code| {
        NarrowStep(env, f, taken, code[t.pc], t.data);
        StuckTraps(env', code, t);
      }
      SameStep(env, env', code, t);
    } else {
      ZeroSteps(env, code, s);
      ZeroSteps(Narrow(env, taken), code, s);
    }
  }

  // ----- one iteration, and any number -----

  /** Code that does not trap returns or runs forever. */
  lemma NoTrap(env: Env, p: Code, q: Code, s: State, n: nat)
    requires PreservesFrom(env, p, q, s) && forall m: nat :: !Steps(env, p, s, m).Trap?
    ensures !Steps(env, q, s, n).Trap?
  {
    if m: nat :| !Steps(env, p, s, m).Run? {
      var final := Steps(env, p, s, m);
      assert Reaches(env, p, s, final);
      var i: nat :| Steps(env, q, s, i) == final;
      if i <= n { StaysStopped(env, q, s, i, n); }
      if n < i && Steps(env, q, s, n).Trap? { StaysStopped(env, q, s, n, i); }
    } else {
      assert RunsForever(env, p, s);
    }
  }

  /** Two worlds in which both lists run alike. */
  lemma PreservesAlike(env: Env, env': Env, p: Code, q: Code, s: State)
    requires forall n: nat :: Steps(env, p, s, n) == Steps(env', p, s, n)
    requires forall n: nat :: Steps(env, q, s, n) == Steps(env', q, s, n)
    requires PreservesFrom(env', p, q, s)
    ensures PreservesFrom(env, p, q, s)
  {
    forall final: State | final.Done? && Reaches(env, p, s, final) ensures Reaches(env, q, s, final) {
      var n: nat :| Steps(env, p, s, n) == final;
      assert Steps(env', p, s, n) == final;
      assert Reaches(env', p, s, final);
      var m: nat :| Steps(env', q, s, m) == final;
      assert Steps(env, q, s, m) == final;
    }
    if RunsForever(env, p, s) {
      assert RunsForever(env', p, s) by { forall n: nat ensures Steps(env', p, s, n).Run? { } }
      assert forall n: nat :: Steps(env, q, s, n) == Steps(env', q, s, n) && Steps(env, q, s, n).Run?;
      PerformsAlike(env, env', p, s);
      PerformsAlike(env, env', q, s);
    }
  }

  lemma PerformsAlike(env: Env, env': Env, p: Code, s: State)
    requires forall n: nat :: Steps(env, p, s, n) == Steps(env', p, s, n)
    ensures forall trace: Trace :: Performs(env, p, s, trace) <==> Performs(env', p, s, trace)
  {
    forall trace: Trace ensures Performs(env, p, s, trace) <==> Performs(env', p, s, trace) {
      if Performs(env, p, s, trace) {
        var n: nat :| Steps(env, p, s, n).Run? && trace <= Steps(env, p, s, n).data.trace;
        assert Steps(env', p, s, n) == Steps(env, p, s, n);
      }
      if Performs(env', p, s, trace) {
        var n: nat :| Steps(env', p, s, n).Run? && trace <= Steps(env', p, s, n).data.trace;
        assert Steps(env, p, s, n) == Steps(env', p, s, n);
      }
    }
  }

  lemma IterationRuns(env: Env, f: Frame, code: Code, slots: Slots)
    requires Lowered(code) && InPlace(env, f) && Spacious(f) && NeverTraps(env, f, code, Start(slots))
    ensures PreservesFrom(env, code, Iteration(code), Start(slots))
    ensures forall n: nat :: !Steps(env, Iteration(code), Start(slots), n).Trap?
  {
    var narrow, q, s := Narrow(env, Taken(code)), Iteration(code), Start(slots);
    NarrowAlias(env, Taken(code));
    assert Elsewhere(env, env);
    hide Lowered, InPlace, Spacious, Taken, Narrow, Iteration, Start;
    IterationPreserves(narrow, code);
    assert PreservesFrom(narrow, code, q, s);
    hide PreservesFrom;
    forall n: nat ensures Steps(env, code, s, n) == Steps(narrow, code, s, n) && !Steps(narrow, code, s, n).Trap? {
      NarrowRun(env, f, code, s, n);
      StaysDefined(env, env, f, code, s, n);
    }
    forall n: nat ensures Steps(env, q, s, n) == Steps(narrow, q, s, n) && !Steps(narrow, q, s, n).Trap? {
      NoTrap(narrow, code, q, s, n);
      WideRun(env, f, Taken(code), q, s, n);
    }
    PreservesAlike(env, narrow, code, q, s);
  }

  lemma NarrowAlias(env: Env, taken: set<int>)
    ensures AliasWithin(Narrow(env, taken), taken)
  {
  }

  /** What one iteration makes of a defined function is defined. */
  lemma IterationDefined(env: Env, f: Frame, code: Code, slots: Slots)
    requires Lowered(code) && Spacious(f) && NeverTraps(env, f, code, Start(slots))
    ensures NeverTraps(env, f, Iteration(code), Start(slots))
  {
    forall env': Env, n: nat | Elsewhere(env, env') && InPlace(env', f)
      ensures !Steps(env', Iteration(code), Start(slots), n).Trap?
    {
      StaysDefined(env, env', f, code, Start(slots), n);
      IterationRuns(env', f, code, slots);
    }
  }

  /** For any number of iterations: a function that is defined from these slots, wherever they lie, has the
      same runs when it is optimised, and is still defined. */
  lemma {:induction false} PipelinePreserves(env: Env, f: Frame, code: Code, slots: Slots, n: nat)
    requires Lowered(code) && InPlace(env, f) && Spacious(f) && NeverTraps(env, f, code, Start(slots))
    ensures PreservesFrom(env, code, Iterate(code, n), Start(slots))
    ensures NeverTraps(env, f, Iterate(code, n), Start(slots)) && Lowered(Iterate(code, n))
    decreases n
  {
    hide Lowered, InPlace, Spacious, NeverTraps, Iteration, PreservesFrom, NoNew, Taken;
    if n == 0 {
      PreservesItself(env, code);
      FromPreserves(env, code, code, slots);
    } else {
      IterationPreserves(env, code);
      IterationRuns(env, f, code, slots);
      IterationDefined(env, f, code, slots);
      PipelinePreserves(env, f, Iteration(code), slots, n - 1);
      FromTransitive(env, code, Iteration(code), Iterate(code, n), Start(slots));
    }
  }

  lemma FromPreserves(env: Env, p: Code, q: Code, slots: Slots)
    requires Preserves(env, p, q)
    ensures PreservesFrom(env, p, q, Start(slots))
  {
  }

  lemma FromTransitive(env: Env, p: Code, q: Code, r: Code, s: State)
    requires PreservesFrom(env, p, q, s) && PreservesFrom(env, q, r, s)
    ensures PreservesFrom(env, p, r, s)
  {
  }
}
